/** Two small graphs and what the sampler does on them. */
module Scenarios {
  import opened Wrappers
  import opened Graphs
  import opened WalkSampler

  /** The triangle A-B, B-C, C-A as networkx stores an undirected graph. */
  function Triangle(): Graph<string>
  {
    Graph(["A", "B", "C"], map["A" := ["B", "C"], "B" := ["A", "C"], "C" := ["A", "B"]])
  }

  /** A single node Z without edges. */
  function Isolated(): Graph<string>
  {
    Graph(["Z"], map["Z" := []])
  }

  lemma TriangleWellFormed()
    ensures WellFormed(Triangle()) && NoDeadEnds(Triangle())
  {
    var g := Triangle();
    forall n | n in g.adj ensures n in g.nodes {
      assert n == "A" || n == "B" || n == "C";
    }
  }

  /** In the corrected sampler, two walks of length 3 from A, whatever the draws: each starts at A, stays on the
      triangle and follows its edges. */
  lemma TriangleFromA(rand: nat -> nat)
    ensures var r := WalkBatch(Some(Triangle()), 2, Some("A"), 3, rand);
      r.Ok? && |r.value| == 2 &&
      forall j :: 0 <= j < 2 ==>
        |r.value[j]| == 3 && r.value[j][0] == "A" && Steps(Some(Triangle()), r.value[j]) &&
        forall x :: x in r.value[j] ==> x in ["A", "B", "C"]
  {
    var g := Some(Triangle());
    TriangleWellFormed();
    NoDeadEndsSucceeds(g, 2, Some("A"), 3, rand);
    WalkBatchOk(g, 2, Some("A"), 3, rand);
    var ws := WalkBatch(g, 2, Some("A"), 3, rand).value;
    forall j | 0 <= j < 2
      ensures forall x :: x in ws[j] ==> x in ["A", "B", "C"]
    {
      WalkInGraph(g, Some("A"), 3, ws[j]);
    }
  }

  /** As written, the same call raises NameError at line 81. */
  lemma TriangleFromAAsWritten(rand: nat -> nat)
    ensures RandomWalkAsWritten(Some(Triangle()), 2, Some("A"), 3, rand) == Err(StartNodeUnbound)
  {
    AsWrittenVersusCorrected(Some(Triangle()), 2, Some("A"), 3, rand);
  }

  /** Five nodes requested from the isolated node Z: the corrected sampler raises IndexError
      rather than returning the walk [Z]; the source as written raises NameError first. */
  lemma IsolatedFromZ(rand: nat -> nat)
    ensures WalkBatch(Some(Isolated()), 1, Some("Z"), 5, rand) == Err(DeadEnd)
    ensures RandomWalkAsWritten(Some(Isolated()), 1, Some("Z"), 5, rand) == Err(StartNodeUnbound)
  {
    FixedStartDeadEndFails(Some(Isolated()), 1, "Z", 5, rand);
    AsWrittenVersusCorrected(Some(Isolated()), 1, Some("Z"), 5, rand);
  }

  /** Five nodes requested from a random start on the isolated graph: the seed is Z and the
      source as written raises IndexError at the first step. */
  lemma IsolatedRandomStart(rand: nat -> nat)
    ensures RandomWalkAsWritten(Some(Isolated()), 1, None, 5, rand) == Err(DeadEnd)
  {
    var g := Isolated();
    forall n | n in g.adj ensures g.adj[n] == [] && n in g.nodes {
      assert n == "Z";
    }
    AllDeadEndsFail(Some(g), 1, 5, rand);
  }

  /** One node requested from Z: the corrected sampler takes no step and returns [[Z]]; the
      source as written raises NameError. */
  lemma IsolatedSingleNode(rand: nat -> nat)
    ensures WalkBatch(Some(Isolated()), 1, Some("Z"), 1, rand) == Ok([["Z"]])
    ensures RandomWalkAsWritten(Some(Isolated()), 1, Some("Z"), 1, rand) == Err(StartNodeUnbound)
  {
    AsWrittenVersusCorrected(Some(Isolated()), 1, Some("Z"), 1, rand);
    var g := Some(Isolated());
    assert OneWalk(g, Some("Z"), 1, rand, 0) == Ok((["Z"], 0));
    assert BatchFrom(g, 0, Some("Z"), 1, rand, 0, [["Z"]]) == Ok([["Z"]]);
    assert [] + [["Z"]] == [["Z"]];
    assert WalkBatch(g, 1, Some("Z"), 1, rand) == AfterWalk(OneWalk(g, Some("Z"), 1, rand, 0), g, 0, Some("Z"), 1, rand, []);
  }
}

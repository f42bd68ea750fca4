/** `DeepWalk.random_walk`: a batch of uniform random walks over the graph held in `self.G`.
    The process-wide `random` generator is replaced by `rand`, where `rand(k)` is the raw
    value of the k-th call of `random.choice` in the batch (counting from 0). */
module WalkSampler {
  import opened Wrappers
  import opened Graphs

  /** The exceptions `random_walk` can raise. */
  datatype WalkError =
    | GraphUnset        // AttributeError: the constructor swallowed a load error, `self.G` was never set
    | NoNodes           // IndexError: `random.choice` over an empty node list
    | UnknownNode       // NetworkXError: `G.neighbors` of a node that is not in the graph
    | DeadEnd           // IndexError: `random.choice` over an empty neighbour list
    | StartNodeUnbound  // NameError: `s_node` read before assignment when `start_node` is given

  /** The default of the `random_walk_times` parameter. */
  const DefaultRandomWalkTimes := 5

  /** `random.choice(xs)` as the k-th draw of the batch. */
  function Choose<N>(xs: seq<N>, rand: nat -> nat, k: nat): (x: N)
    requires |xs| > 0
    ensures x in xs
  {
    xs[rand(k) % |xs|]
  }

  /** `list(G.neighbors(n))`: the neighbour list, or the exception the lookup raises.
      On a well-formed graph the lookup of a node never raises and stays inside the graph. */
  function Neighbors<N(==)>(g: Option<Graph<N>>, n: N): (r: Result<seq<N>, WalkError>)
    ensures g.Some? && WellFormed(g.value) && n in g.value.nodes ==>
      r.Ok? && forall m :: m in r.value ==> m in g.value.nodes
  {
    if g.None? then Err(GraphUnset)
    else if n !in g.value.adj then Err(UnknownNode)
    else Ok(g.value.adj[n])
  }

  /** The first node of a walk and the draw counter after it: the fixed `start_node`, or a
      node drawn from `list(G.nodes())`. This is the intended reading of line 81, where the
      current node is the walk's first node; OneWalkAsWritten keeps the source's reading. */
  function Seed<N(==)>(g: Option<Graph<N>>, start: Option<N>, rand: nat -> nat, k: nat): (r: Result<(N, nat), WalkError>)
    ensures start.Some? ==> r == Ok((start.value, k))
    ensures start.None? && r.Ok? ==> g.Some? && r.value.0 in g.value.nodes && r.value.1 == k + 1
    ensures start.None? ==> (r.Err? <==> g.None? || |g.value.nodes| == 0)
  {
    match start
    case Some(s) => Ok((s, k))
    case None =>
      if g.None? then Err(GraphUnset)
      else if |g.value.nodes| == 0 then Err(NoNodes)
      else Ok((Choose(g.value.nodes, rand, k), k + 1))
  }

  /** The inner `while` loop: look up the neighbours of `current`, step to a chosen one and
      append it, until the walk holds `times` nodes. Yields the finished walk and the draw
      counter after it. */
  function Extend<N(==)>(g: Option<Graph<N>>, walk: seq<N>, current: N, times: int, rand: nat -> nat, k: nat)
    : Result<(seq<N>, nat), WalkError>
    requires |walk| > 0
    decreases times - |walk|
  {
    if |walk| >= times then Ok((walk, k))
    else
      match Neighbors(g, current)
      case Err(e) => Err(e)
      case Ok(nbrs) =>
        if |nbrs| == 0 then Err(DeadEnd)
        else
          var next := Choose(nbrs, rand, k);
          Extend(g, walk + [next], next, times, rand, k + 1)
  }

  /** One pass of the outer `for` loop: seed a walk and extend it from its seed. */
  function OneWalk<N(==)>(g: Option<Graph<N>>, start: Option<N>, times: int, rand: nat -> nat, k: nat): Result<(seq<N>, nat), WalkError>
  {
    match Seed(g, start, rand, k)
    case Err(e) => Err(e)
    case Ok((s, k1)) => Extend(g, [s], s, times, rand, k1)
  }

  /** `remaining` more passes of the outer loop, after `acc` has been recorded and `k` draws made. */
  function BatchFrom<N(==)>(g: Option<Graph<N>>, remaining: nat, start: Option<N>, times: int, rand: nat -> nat,
                            k: nat, acc: seq<seq<N>>): Result<seq<seq<N>>, WalkError>
    decreases remaining, 0
  {
    if remaining == 0 then Ok(acc)
    else AfterWalk(OneWalk(g, start, times, rand, k), g, remaining - 1, start, times, rand, acc)
  }

  /** Record the walk one pass produced (or propagate its exception) and go on with the batch. */
  function AfterWalk<N(==)>(step: Result<(seq<N>, nat), WalkError>, g: Option<Graph<N>>, remaining: nat, start: Option<N>,
                            times: int, rand: nat -> nat, acc: seq<seq<N>>): Result<seq<seq<N>>, WalkError>
    decreases remaining, 1
  {
    match step
    case Err(e) => Err(e)
    case Ok((w, k1)) => BatchFrom(g, remaining, start, times, rand, k1, acc + [w])
  }

  /** The whole batch: `range(iterations)` is empty for a negative count. */
  function WalkBatch<N(==)>(g: Option<Graph<N>>, iterations: int, start: Option<N>, times: int, rand: nat -> nat): Result<seq<seq<N>>, WalkError>
  {
    BatchFrom(g, if iterations < 0 then 0 else iterations, start, times, rand, 0, [])
  }

  /** What every walk of a successful batch is: `max(1, times)` nodes, consecutive nodes adjacent,
      beginning with the fixed start node or with a node of the graph. */
  ghost predicate GoodWalk<N>(g: Option<Graph<N>>, start: Option<N>, times: int, w: seq<N>)
  {
    |w| == Max(1, times) &&
    Steps(g, w) &&
    (start.Some? ==> w[0] == start.value) &&
    (start.None? ==> g.Some? && w[0] in g.value.nodes)
  }

  /** `DeepWalk.random_walk` with the seed node taken as the current node. */
  method RandomWalk<N(==)>(g: Option<Graph<N>>, iterations: int, start: Option<N>, randomWalkTimes: int, rand: nat -> nat)
    returns (r: Result<seq<seq<N>>, WalkError>)
    ensures r == WalkBatch(g, iterations, start, randomWalkTimes, rand)
    ensures r.Ok? ==> |r.value| == Max(0, iterations)
    ensures r.Ok? ==> forall j :: 0 <= j < |r.value| ==> GoodWalk(g, start, randomWalkTimes, r.value[j])
  {
    var n: nat := if iterations < 0 then 0 else iterations;
    var records: seq<seq<N>> := [];
    var k: nat := 0;
    var i: nat := 0;
    while i < n
      invariant i <= n
      invariant WalkBatch(g, iterations, start, randomWalkTimes, rand) == BatchFrom(g, n - i, start, randomWalkTimes, rand, k, records)
    {
      ghost var k0 := k;
      var walk: seq<N>;
      if start.None? {
        if g.None? {
          r := Err(GraphUnset);
          return;
        }
        var nodes := g.value.nodes;
        if |nodes| == 0 {
          r := Err(NoNodes);
          return;
        }
        walk := [Choose(nodes, rand, k)];
        k := k + 1;
      } else {
        walk := [start.value];
      }
      var current := walk[0];
      while |walk| < randomWalkTimes
        invariant |walk| > 0
        invariant BatchFrom(g, n - i, start, randomWalkTimes, rand, k0, records)
               == AfterWalk(Extend(g, walk, current, randomWalkTimes, rand, k), g, n - i - 1, start, randomWalkTimes, rand, records)
        decreases randomWalkTimes - |walk|
      {
        if g.None? {
          r := Err(GraphUnset);
          return;
        }
        if current !in g.value.adj {
          r := Err(UnknownNode);
          return;
        }
        var neighbors := g.value.adj[current];
        if |neighbors| == 0 {
          r := Err(DeadEnd);
          return;
        }
        current := Choose(neighbors, rand, k);
        walk := walk + [current];
        k := k + 1;
      }
      records := records + [walk];
      i := i + 1;
    }
    r := Ok(records);
    WalkBatchOk(g, iterations, start, randomWalkTimes, rand);
  }

  /** `random_walk(iterations, start_node)` with `random_walk_times` left at its default:
      every walk of a successful batch holds five nodes. */
  method RandomWalkDefault<N(==)>(g: Option<Graph<N>>, iterations: int, start: Option<N>, rand: nat -> nat)
    returns (r: Result<seq<seq<N>>, WalkError>)
    ensures r == WalkBatch(g, iterations, start, DefaultRandomWalkTimes, rand)
    ensures r.Ok? ==> |r.value| == Max(0, iterations) && forall j :: 0 <= j < |r.value| ==> |r.value[j]| == 5
  {
    r := RandomWalk(g, iterations, start, DefaultRandomWalkTimes, rand);
    if r.Ok? {
      forall j | 0 <= j < |r.value| ensures |r.value[j]| == 5 {
        assert GoodWalk(g, start, DefaultRandomWalkTimes, r.value[j]);
      }
    }
  }

  // ---------------------------------------------------------------------------
  // The source as written

  /** One pass of the outer loop as the source has it: `s_node` is bound only on the random
      branch (line 76), and line 81 then reads it as the current node. `sNode == None` is the
      unbound local. */
  function OneWalkAsWritten<N(==)>(g: Option<Graph<N>>, start: Option<N>, times: int, rand: nat -> nat, k: nat)
    : Result<(seq<N>, nat), WalkError>
  {
    var seeded: Result<(seq<N>, Option<N>, nat), WalkError> :=
      match start
      case None =>
        if g.None? then Err(GraphUnset)
        else if |g.value.nodes| == 0 then Err(NoNodes)
        else
          var s := Choose(g.value.nodes, rand, k);
          Ok(([s], Some(s), k + 1))
      case Some(s) => Ok(([s], None, k));
    match seeded
    case Err(e) => Err(e)
    case Ok((walk, sNode, k1)) =>
      match sNode
      case None => Err(StartNodeUnbound)
      case Some(current) => Extend(g, walk, current, times, rand, k1)
  }

  function BatchFromAsWritten<N(==)>(g: Option<Graph<N>>, remaining: nat, start: Option<N>, times: int, rand: nat -> nat,
                                     k: nat, acc: seq<seq<N>>): Result<seq<seq<N>>, WalkError>
    decreases remaining
  {
    if remaining == 0 then Ok(acc)
    else
      match OneWalkAsWritten(g, start, times, rand, k)
      case Err(e) => Err(e)
      case Ok((w, k1)) => BatchFromAsWritten(g, remaining - 1, start, times, rand, k1, acc + [w])
  }

  /** `random_walk` exactly as written, line 81 included. A successful call with a start node
      returns no walks. */
  function RandomWalkAsWritten<N(==)>(g: Option<Graph<N>>, iterations: int, start: Option<N>, times: int, rand: nat -> nat)
    : (r: Result<seq<seq<N>>, WalkError>)
    ensures r.Ok? && start.Some? ==> iterations <= 0 && r.value == []
  {
    BatchFromAsWritten(g, if iterations < 0 then 0 else iterations, start, times, rand, 0, [])
  }

  /** With a random start the source as written and the corrected batch agree pass for pass. */
  lemma {:induction false} BatchFromAsWrittenRandomStart<N>(g: Option<Graph<N>>, remaining: nat, times: int,
                                                           rand: nat -> nat, k: nat, acc: seq<seq<N>>)
    ensures BatchFromAsWritten(g, remaining, None, times, rand, k, acc) == BatchFrom(g, remaining, None, times, rand, k, acc)
    decreases remaining
  {
    if remaining > 0 {
      assert OneWalkAsWritten(g, None, times, rand, k) == OneWalk(g, None, times, rand, k);
      match OneWalk(g, None, times, rand, k)
      case Err(_) =>
      case Ok((w, k1)) => BatchFromAsWrittenRandomStart(g, remaining - 1, times, rand, k1, acc + [w]);
    }
  }

  /** The source as written against the corrected sampler: equal without a start node; with a
      start node and at least one iteration, NameError. */
  lemma AsWrittenVersusCorrected<N>(g: Option<Graph<N>>, iterations: int, start: Option<N>, times: int, rand: nat -> nat)
    ensures start.None? ==> RandomWalkAsWritten(g, iterations, start, times, rand) == WalkBatch(g, iterations, start, times, rand)
    ensures start.Some? && iterations >= 1 ==> RandomWalkAsWritten(g, iterations, start, times, rand) == Err(StartNodeUnbound)
  {
    if start.None? {
      BatchFromAsWrittenRandomStart(g, if iterations < 0 then 0 else iterations, times, rand, 0, []);
    }
  }

  // ---------------------------------------------------------------------------
  // Properties of a successful batch

  /** Extending a walk from its last node keeps it as a prefix, reaches exactly
      `max(|walk|, times)` nodes, makes one draw per added node, and adds only edges of the graph. */
  lemma {:induction false} ExtendOk<N>(g: Option<Graph<N>>, walk: seq<N>, times: int, rand: nat -> nat, k: nat)
    requires |walk| > 0
    requires Extend(g, walk, walk[|walk| - 1], times, rand, k).Ok?
    ensures var (w, k1) := Extend(g, walk, walk[|walk| - 1], times, rand, k).value;
      |w| == Max(|walk|, times) && w[..|walk|] == walk && k1 == k + |w| - |walk| &&
      (Steps(g, walk) ==> Steps(g, w))
    decreases times - |walk|
  {
    if |walk| < times {
      var current := walk[|walk| - 1];
      var nbrs := g.value.adj[current];
      var next := Choose(nbrs, rand, k);
      var walk' := walk + [next];
      ExtendOk(g, walk', times, rand, k + 1);
      var w := Extend(g, walk', next, times, rand, k + 1).value.0;
      assert w[..|walk|] == w[..|walk'|][..|walk|];
      if Steps(g, walk) {
        assert IsEdge(g, current, next);
        assert Steps(g, walk');
      }
    }
  }

  /** A successful pass yields a GoodWalk and does not move the draw counter backwards. */
  lemma OneWalkOk<N>(g: Option<Graph<N>>, start: Option<N>, times: int, rand: nat -> nat, k: nat)
    requires OneWalk(g, start, times, rand, k).Ok?
    ensures GoodWalk(g, start, times, OneWalk(g, start, times, rand, k).value.0)
    ensures OneWalk(g, start, times, rand, k).value.1 >= k
  {
    var (s, k1) := Seed(g, start, rand, k).value;
    ExtendOk(g, [s], times, rand, k1);
  }

  /** A successful remainder of the batch appends exactly `remaining` GoodWalks to `acc`. */
  lemma {:induction false} BatchFromOk<N>(g: Option<Graph<N>>, remaining: nat, start: Option<N>, times: int,
                                          rand: nat -> nat, k: nat, acc: seq<seq<N>>)
    requires BatchFrom(g, remaining, start, times, rand, k, acc).Ok?
    ensures var ws := BatchFrom(g, remaining, start, times, rand, k, acc).value;
      |ws| == |acc| + remaining && ws[..|acc|] == acc &&
      forall j :: |acc| <= j < |ws| ==> GoodWalk(g, start, times, ws[j])
    decreases remaining
  {
    if remaining > 0 {
      OneWalkOk(g, start, times, rand, k);
      var (w, k1) := OneWalk(g, start, times, rand, k).value;
      BatchFromOk(g, remaining - 1, start, times, rand, k1, acc + [w]);
      var ws := BatchFrom(g, remaining, start, times, rand, k, acc).value;
      assert ws[..|acc| + 1] == acc + [w];
      assert ws[..|acc|] == (acc + [w])[..|acc|];
    }
  }

  /** A successful batch holds exactly `max(0, iterations)` walks, each a GoodWalk. */
  lemma WalkBatchOk<N>(g: Option<Graph<N>>, iterations: int, start: Option<N>, times: int, rand: nat -> nat)
    requires WalkBatch(g, iterations, start, times, rand).Ok?
    ensures var ws := WalkBatch(g, iterations, start, times, rand).value;
      |ws| == Max(0, iterations) &&
      forall j :: 0 <= j < |ws| ==> GoodWalk(g, start, times, ws[j])
  {
    BatchFromOk(g, if iterations < 0 then 0 else iterations, start, times, rand, 0, []);
  }

  /** In a well-formed graph every node of a walk after the first is a node of the graph,
      and so is the first when it was drawn at random. */
  lemma WalkInGraph<N>(g: Option<Graph<N>>, start: Option<N>, times: int, w: seq<N>)
    requires g.Some? && WellFormed(g.value)
    requires GoodWalk(g, start, times, w)
    ensures forall i :: 0 < i < |w| ==> w[i] in g.value.nodes
    ensures start.None? ==> forall x :: x in w ==> x in g.value.nodes
  {
    forall i | 0 < i < |w|
      ensures w[i] in g.value.nodes
    {
      assert IsEdge(g, w[i - 1], w[i]);
    }
  }

  /** A non-positive iteration count yields no walks and never raises. */
  lemma NoIterationsNoWalks<N>(g: Option<Graph<N>>, iterations: int, start: Option<N>, times: int, rand: nat -> nat)
    requires iterations <= 0
    ensures WalkBatch(g, iterations, start, times, rand) == Ok([])
  {
  }

  // ---------------------------------------------------------------------------
  // When the batch succeeds and when it raises

  /** From a node of a well-formed graph without dead ends, extending never raises. */
  lemma {:induction false} ExtendSucceeds<N>(g: Option<Graph<N>>, walk: seq<N>, current: N, times: int, rand: nat -> nat, k: nat)
    requires g.Some? && WellFormed(g.value) && NoDeadEnds(g.value)
    requires |walk| > 0 && current in g.value.adj
    ensures Extend(g, walk, current, times, rand, k).Ok?
    decreases times - |walk|
  {
    if |walk| < times {
      var nbrs := g.value.adj[current];
      var next := Choose(nbrs, rand, k);
      ExtendSucceeds(g, walk + [next], next, times, rand, k + 1);
    }
  }

  lemma {:induction false} BatchFromSucceeds<N>(g: Option<Graph<N>>, remaining: nat, start: Option<N>, times: int,
                                                rand: nat -> nat, k: nat, acc: seq<seq<N>>)
    requires g.Some? && WellFormed(g.value) && NoDeadEnds(g.value)
    requires start.None? ==> |g.value.nodes| > 0
    requires start.Some? ==> start.value in g.value.adj
    ensures BatchFrom(g, remaining, start, times, rand, k, acc).Ok?
    decreases remaining
  {
    if remaining > 0 {
      var (s, k1) := Seed(g, start, rand, k).value;
      ExtendSucceeds(g, [s], s, times, rand, k1);
      var (w, k2) := OneWalk(g, start, times, rand, k).value;
      BatchFromSucceeds(g, remaining - 1, start, times, rand, k2, acc + [w]);
    }
  }

  /** On a well-formed graph with no isolated node, the corrected batch, seeded at random from
      a non-empty node list or at a node of the graph, never raises. */
  lemma NoDeadEndsSucceeds<N>(g: Option<Graph<N>>, iterations: int, start: Option<N>, times: int, rand: nat -> nat)
    requires g.Some? && WellFormed(g.value) && NoDeadEnds(g.value)
    requires start.None? ==> |g.value.nodes| > 0
    requires start.Some? ==> start.value in g.value.adj
    ensures WalkBatch(g, iterations, start, times, rand).Ok?
  {
    BatchFromSucceeds(g, if iterations < 0 then 0 else iterations, start, times, rand, 0, []);
  }

  /** A walk that reaches a node with no neighbours before it is long enough raises IndexError:
      the walk is not truncated. */
  lemma ExtendDeadEnd<N>(g: Option<Graph<N>>, walk: seq<N>, current: N, times: int, rand: nat -> nat, k: nat)
    requires |walk| > 0 && |walk| < times
    requires Neighbors(g, current) == Ok([])
    ensures Extend(g, walk, current, times, rand, k) == Err(DeadEnd)
  {
  }

  /** A pass that raises, at any point of the batch, makes the whole rest of the batch raise
      the same exception: the walks recorded so far are not returned. */
  lemma PassFails<N>(g: Option<Graph<N>>, remaining: nat, start: Option<N>, times: int, rand: nat -> nat,
                     k: nat, acc: seq<seq<N>>)
    requires remaining >= 1
    requires OneWalk(g, start, times, rand, k).Err?
    ensures BatchFrom(g, remaining, start, times, rand, k, acc) == Err(OneWalk(g, start, times, rand, k).error)
  {
    assert BatchFrom(g, remaining, start, times, rand, k, acc)
        == AfterWalk(OneWalk(g, start, times, rand, k), g, remaining - 1, start, times, rand, acc);
  }

  /** A batch that raises has at least one pass left, and its exception is the one raised by
      the first pass, or by the rest of the batch after that pass's walk is recorded. */
  lemma {:induction false} BatchErrorComesFromAPass<N>(g: Option<Graph<N>>, remaining: nat, start: Option<N>, times: int,
                                            rand: nat -> nat, k: nat, acc: seq<seq<N>>, e: WalkError)
    requires BatchFrom(g, remaining, start, times, rand, k, acc) == Err(e)
    ensures remaining >= 1
    ensures OneWalk(g, start, times, rand, k).Err? ==> OneWalk(g, start, times, rand, k).error == e
    ensures OneWalk(g, start, times, rand, k).Ok? ==>
      BatchFrom(g, remaining - 1, start, times, rand, OneWalk(g, start, times, rand, k).value.1,
                acc + [OneWalk(g, start, times, rand, k).value.0]) == Err(e)
  {
    if remaining >= 1 {
      assert BatchFrom(g, remaining, start, times, rand, k, acc)
          == AfterWalk(OneWalk(g, start, times, rand, k), g, remaining - 1, start, times, rand, acc);
    }
  }

  /** When the first pass raises, the whole call raises the same exception. */
  lemma FirstWalkFails<N>(g: Option<Graph<N>>, iterations: int, start: Option<N>, times: int, rand: nat -> nat)
    requires iterations >= 1
    requires OneWalk(g, start, times, rand, 0).Err?
    ensures WalkBatch(g, iterations, start, times, rand) == Err(OneWalk(g, start, times, rand, 0).error)
  {
    PassFails(g, iterations, start, times, rand, 0, []);
  }

  /** In the corrected sampler, a fixed start node without neighbours makes the whole batch
      raise IndexError. (As written, the same call raises NameError first.) */
  lemma FixedStartDeadEndFails<N>(g: Option<Graph<N>>, iterations: int, s: N, times: int, rand: nat -> nat)
    requires g.Some? && s in g.value.adj && g.value.adj[s] == []
    requires iterations >= 1 && times >= 2
    ensures WalkBatch(g, iterations, Some(s), times, rand) == Err(DeadEnd)
  {
    ExtendDeadEnd(g, [s], s, times, rand, 0);
    FirstWalkFails(g, iterations, Some(s), times, rand);
  }

  /** When every node is isolated, a random-start batch that needs a step raises IndexError,
      in the corrected sampler and in the source as written alike. */
  lemma AllDeadEndsFail<N>(g: Option<Graph<N>>, iterations: int, times: int, rand: nat -> nat)
    requires g.Some? && WellFormed(g.value) && |g.value.nodes| > 0
    requires forall n :: n in g.value.adj ==> g.value.adj[n] == []
    requires iterations >= 1 && times >= 2
    ensures WalkBatch(g, iterations, None, times, rand) == Err(DeadEnd)
    ensures RandomWalkAsWritten(g, iterations, None, times, rand) == Err(DeadEnd)
  {
    var (s, k1) := Seed(g, None, rand, 0).value;
    ExtendDeadEnd(g, [s], s, times, rand, k1);
    FirstWalkFails(g, iterations, None, times, rand);
    AsWrittenVersusCorrected(g, iterations, None, times, rand);
  }

  /** In the corrected sampler, a fixed start node that is not in the graph raises once a step
      is needed. (As written, the same call raises NameError first.) */
  lemma FixedStartUnknownFails<N>(g: Option<Graph<N>>, iterations: int, s: N, times: int, rand: nat -> nat)
    requires g.Some? && s !in g.value.adj
    requires iterations >= 1 && times >= 2
    ensures WalkBatch(g, iterations, Some(s), times, rand) == Err(UnknownNode)
  {
    assert Extend(g, [s], s, times, rand, 0) == Err(UnknownNode);
    FirstWalkFails(g, iterations, Some(s), times, rand);
  }

  /** Without a graph (`self.G` unset) the first access to it raises AttributeError: with a
      random start in the source as written too, with a fixed start in the corrected sampler. */
  lemma GraphUnsetFails<N>(iterations: int, start: Option<N>, times: int, rand: nat -> nat)
    requires iterations >= 1
    requires start.None? || times >= 2
    ensures WalkBatch(None, iterations, start, times, rand) == Err(GraphUnset)
    ensures start.None? ==> RandomWalkAsWritten(None, iterations, start, times, rand) == Err(GraphUnset)
  {
    if start.Some? {
      assert Extend(None, [start.value], start.value, times, rand, 0) == Err(GraphUnset);
    }
    FirstWalkFails(None, iterations, start, times, rand);
    AsWrittenVersusCorrected(None, iterations, start, times, rand);
  }

  // ---------------------------------------------------------------------------
  // The line-81 defect

  /** On a well-formed graph without isolated nodes and from a start node of the graph, the
      corrected sampler returns `iterations` walks that all begin at the start node, while the
      source as written raises NameError. */
  lemma FixedStartDiscrepancy<N>(g: Option<Graph<N>>, iterations: int, s: N, times: int, rand: nat -> nat)
    requires g.Some? && WellFormed(g.value) && NoDeadEnds(g.value) && s in g.value.adj
    requires iterations >= 1
    ensures RandomWalkAsWritten(g, iterations, Some(s), times, rand) == Err(StartNodeUnbound)
    ensures var r := WalkBatch(g, iterations, Some(s), times, rand);
      r.Ok? && |r.value| == iterations && forall j :: 0 <= j < |r.value| ==> |r.value[j]| > 0 && r.value[j][0] == s
  {
    AsWrittenVersusCorrected(g, iterations, Some(s), times, rand);
    NoDeadEndsSucceeds(g, iterations, Some(s), times, rand);
    WalkBatchOk(g, iterations, Some(s), times, rand);
  }
}

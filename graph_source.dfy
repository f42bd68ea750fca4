/** The source-selection branch of `DeepWalk.__init__`: which of the three inputs becomes
    `self.G`. The networkx readers are passed in as `readAdjlist` and `readEdgelist`; a reader
    yields None when it raises, which the constructor catches and discards, leaving `self.G` unset. */
module GraphSource {
  import opened Wrappers
  import opened Graphs
  import WalkSampler

  /** The input that `__init__` chose. */
  datatype Source<N(==)> = GivenGraph(graph: Graph<N>) | AdjlistFile(path: string) | EdgelistFile(path: string)

  /** ValueError('all parameter is None, ...'). */
  datatype InitError = AllInputsNone

  /** `G == adjlist_path`: a graph object compares equal to a path only when both are None. */
  predicate GraphEqualsPath<N(==)>(g: Option<Graph<N>>, path: Option<string>)
  {
    g.None? && path.None?
  }

  /** Python's chained comparison `G == adjlist_path == edgelist_path == None`, that is
      `G == adjlist_path and adjlist_path == edgelist_path and edgelist_path == None`. */
  predicate ChainedAllNone<N(==)>(g: Option<Graph<N>>, adjlist: Option<string>, edgelist: Option<string>)
  {
    GraphEqualsPath(g, adjlist) && adjlist == edgelist && edgelist == None
  }

  /** The chained comparison holds exactly when all three inputs are None. */
  lemma ChainedComparisonMeansAllNone<N>(g: Option<Graph<N>>, adjlist: Option<string>, edgelist: Option<string>)
    ensures ChainedAllNone(g, adjlist, edgelist) <==> g.None? && adjlist.None? && edgelist.None?
  {
  }

  /** The guard on line 30 and the `if`/`elif` chain on lines 36-41. */
  function SelectSource<N(==)>(g: Option<Graph<N>>, adjlist: Option<string>, edgelist: Option<string>)
    : (r: Result<Source<N>, InitError>)
    ensures r.Err? <==> g.None? && adjlist.None? && edgelist.None?
    ensures g.Some? ==> r == Ok(GivenGraph(g.value))
    ensures g.None? && adjlist.Some? ==> r == Ok(AdjlistFile(adjlist.value))
    ensures g.None? && adjlist.None? && edgelist.Some? ==> r == Ok(EdgelistFile(edgelist.value))
  {
    if ChainedAllNone(g, adjlist, edgelist) then Err(AllInputsNone)
    else if g.Some? then Ok(GivenGraph(g.value))
    else if adjlist.Some? then Ok(AdjlistFile(adjlist.value))
    else Ok(EdgelistFile(edgelist.value))
  }

  /** Supplying several inputs is not an error: the earliest in the order G, adjacency list,
      edge list wins. */
  lemma SeveralInputsAccepted<N>(g: Option<Graph<N>>, adjlist: Option<string>, edgelist: Option<string>)
    requires adjlist.Some? && edgelist.Some?
    ensures g.Some? ==> SelectSource(g, adjlist, edgelist) == Ok(GivenGraph(g.value))
    ensures g.None? ==> SelectSource(g, adjlist, edgelist) == Ok(AdjlistFile(adjlist.value))
  {
  }

  /** `DeepWalk.__init__`: either the ValueError, or the value of `self.G` afterwards
      (None when the reader raised and the exception was printed and dropped). */
  function Construct<N(==)>(g: Option<Graph<N>>, adjlist: Option<string>, edgelist: Option<string>,
                            readAdjlist: string -> Option<Graph<N>>, readEdgelist: string -> Option<Graph<N>>)
    : (r: Result<Option<Graph<N>>, InitError>)
    ensures r.Err? <==> g.None? && adjlist.None? && edgelist.None?
    ensures g.Some? ==> r == Ok(g)
    ensures g.None? && adjlist.Some? ==> r == Ok(readAdjlist(adjlist.value))
    ensures g.None? && adjlist.None? && edgelist.Some? ==> r == Ok(readEdgelist(edgelist.value))
  {
    match SelectSource(g, adjlist, edgelist)
    case Err(e) => Err(e)
    case Ok(GivenGraph(graph)) => Ok(Some(graph))
    case Ok(AdjlistFile(path)) => Ok(readAdjlist(path))
    case Ok(EdgelistFile(path)) => Ok(readEdgelist(path))
  }

  /** A swallowed load error leaves `self.G` unset, and the object's first walk that touches
      the graph raises AttributeError: as written for a random start, and in the corrected
      sampler for a fixed start too. */
  lemma LoadFailureSurfacesInWalk<N>(adjlist: Option<string>, edgelist: Option<string>,
                                         readAdjlist: string -> Option<Graph<N>>, readEdgelist: string -> Option<Graph<N>>,
                                         iterations: int, start: Option<N>, times: int, rand: nat -> nat)
    requires adjlist.Some? ==> readAdjlist(adjlist.value).None?
    requires adjlist.None? && edgelist.Some? ==> readEdgelist(edgelist.value).None?
    requires adjlist.Some? || edgelist.Some?
    requires iterations >= 1 && (start.None? || times >= 2)
    ensures Construct(None, adjlist, edgelist, readAdjlist, readEdgelist) == Ok(None)
    ensures WalkSampler.WalkBatch(None, iterations, start, times, rand) == Err(WalkSampler.GraphUnset)
    ensures start.None? ==> WalkSampler.RandomWalkAsWritten(None, iterations, start, times, rand) == Err(WalkSampler.GraphUnset)
  {
    WalkSampler.GraphUnsetFails(iterations, start, times, rand);
  }
}

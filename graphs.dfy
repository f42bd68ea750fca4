/** The view of a networkx graph that the walk sampler uses: `G.nodes()` and `G.neighbors(n)`. */
module Graphs {
  import opened Wrappers

  /** `nodes` is the enumeration order of `list(G.nodes())`; `adj[n]` is `list(G.neighbors(n))`. */
  datatype Graph<N(==)> = Graph(nodes: seq<N>, adj: map<N, seq<N>>)

  /** What networkx guarantees of every graph: the enumerated nodes are exactly the nodes
      that have a neighbour list, and every neighbour is itself a node. */
  ghost predicate WellFormed<N>(g: Graph<N>)
  {
    (forall n :: n in g.adj ==> n in g.nodes) &&
    (forall i :: 0 <= i < |g.nodes| ==> g.nodes[i] in g.adj) &&
    (forall n, m :: n in g.adj && m in g.adj[n] ==> m in g.adj)
  }

  /** No node is isolated: every neighbour list is non-empty. */
  ghost predicate NoDeadEnds<N>(g: Graph<N>)
  {
    forall n :: n in g.adj ==> |g.adj[n]| > 0
  }

  /** `b` is a neighbour of `a` in the graph held by the sampler. */
  ghost predicate IsEdge<N>(g: Option<Graph<N>>, a: N, b: N)
  {
    g.Some? && a in g.value.adj && b in g.value.adj[a]
  }

  /** Every consecutive pair of `w` is an edge. */
  ghost predicate Steps<N>(g: Option<Graph<N>>, w: seq<N>)
  {
    forall i :: 0 <= i < |w| - 1 ==> IsEdge(g, w[i], w[i + 1])
  }
}

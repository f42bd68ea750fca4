# DeepWalk random-walk sampler, modelled in Dafny

This project models the core of a small DeepWalk implementation (`deepwalk.py`, class
`DeepWalk`). It covers three parts:

- `random_walk` builds a batch of uniform random walks over a networkx graph. It is the only
  algorithmic part.
- `__init__` decides which of its three inputs becomes `self.G`.
- `buildWord2Vec` resolves its keyword arguments into a call of gensim's `Word2Vec`.

`self.G` is the only state of a `DeepWalk` object. The model writes it as an
`Option<Graph<N>>`, where `None` means the attribute was never set. A graph is its node
enumeration `list(G.nodes())` together with a map from each node to `list(G.neighbors(n))`.
Python's global `random` generator is replaced by a function `rand: nat -> nat`. The k-th call
of `random.choice(xs)` in a batch picks `xs[rand(k) % |xs|]`, so every outcome of a batch is
fixed by `rand`.

Files:

- `wrappers.dfy`: `Option`, `Result`, `Max`.
- `graphs.dfy`: the graph view, what networkx guarantees of it, and edge predicates.
- `walk_sampler.dfy`: `random_walk` as an imperative method (`RandomWalk`) proved equal to a
  recursive specification (`WalkBatch`). Also the code as written (`RandomWalkAsWritten`), and
  lemmas on success, failure and walk shape.
- `graph_source.dfy`: the source selection of `__init__`.
- `word2vec_config.dfy`: keyword resolution in `buildWord2Vec`.
- `scenarios.dfy`: a triangle graph and an isolated node.

The exceptions `random_walk` can raise are values of `WalkError`:

- `GraphUnset`: AttributeError.
- `NoNodes`: `random.choice` over an empty node list.
- `UnknownNode`: `neighbors` of a node that is not in the graph.
- `DeadEnd`: `random.choice` over an empty neighbour list.
- `StartNodeUnbound`: NameError.

A batch that raises returns no walks at all.

The code handles three cases in ways worth stating. The model follows the code each time:

- **Dead ends.** The code does not truncate a walk at a node without neighbours.
  `random.choice([])` raises IndexError and the whole call fails. The model gives `Err(DeadEnd)`.
- **Several graph inputs.** Supplying more than one graph input is not an error. The code takes
  the first one that is not None, in the order `G`, `adjlist_path`, `edgelist_path`.
- **Empty corpus.** `buildWord2Vec` only checks for `walk_path is None`. An empty list of walks
  still reaches `Word2Vec`.

Line 81 reads `s_node`, which is bound only when no start node is given (see the Findings section).
`RandomWalkAsWritten` models the code exactly as written. `WalkBatch` and the method
`RandomWalk` model the corrected reading, where the current node is the walk's first node.
Members marked "corrected" below describe that reading. With a start node and at least one
iteration, the code as written raises NameError instead.

## Model

| member | source | states |
|---|---|---|
| `WalkSampler.RandomWalk` | deepwalk.py:48-91 | Corrected reading of line 81. The loops compute exactly `WalkBatch`. On success there are `max(0, iterations)` walks, each of length `max(1, random_walk_times)`, consecutive nodes adjacent, starting at the fixed start node or at a node of the graph. |
| `WalkSampler.RandomWalkDefault` | deepwalk.py:48 | With `random_walk_times` left at its default of 5, every walk of a successful batch holds five nodes, and there are `max(0, iterations)` walks. |
| `WalkSampler.Choose` | deepwalk.py:86 | `random.choice` returns an element of the non-empty list it is given. |
| `WalkSampler.Neighbors` | deepwalk.py:83 | On a well-formed graph, `G.neighbors(n)` of a node never raises, and every neighbour is a node of the graph. |
| `WalkSampler.Seed` | deepwalk.py:75-79 | A fixed start node is the seed and uses no draw. A random seed is a node of `list(G.nodes())` and uses one draw. The random seed fails exactly when the graph is unset or has no nodes. |
| `WalkSampler.RandomWalkAsWritten` | deepwalk.py:48-91 | The code as written, with `s_node` bound only on the random branch. A successful call with a start node returns no walks, which happens only when `iterations <= 0`. |
| `WalkSampler.BatchFromAsWrittenRandomStart` | deepwalk.py:75-81 | Without a start node, the code as written and the corrected batch agree pass for pass, because `s_node` is the walk's first node. |
| `WalkSampler.AsWrittenVersusCorrected` | deepwalk.py:75-81 | As written, the call equals the corrected batch when no start node is given. With a start node and at least one iteration, it raises NameError. |
| `WalkSampler.ExtendOk` | deepwalk.py:82-87 | The inner loop keeps the walk as a prefix and stops at exactly `max(len, random_walk_times)` nodes. It makes one draw per added node and adds only graph edges. |
| `WalkSampler.OneWalkOk` | deepwalk.py:75-87 | Corrected. One successful pass gives a walk of the right length, with valid edges and the right first node. The draw counter never goes backwards. |
| `WalkSampler.BatchFromOk` | deepwalk.py:73-89 | Corrected. The walks already recorded stay as a prefix, and exactly `remaining` more walks follow, each a good walk. |
| `WalkSampler.WalkBatchOk` | deepwalk.py:70-91 | Corrected. A successful batch has exactly `max(0, iterations)` walks, all good. |
| `WalkSampler.WalkInGraph` | deepwalk.py:76-87 | In a well-formed graph, every node of a good walk after the first is a graph node. A randomly seeded walk lies wholly in the graph. |
| `WalkSampler.NoIterationsNoWalks` | deepwalk.py:70-73 | `range(iterations)` is empty for `iterations <= 0`, and the call returns `[]` without raising. |
| `WalkSampler.ExtendSucceeds` | deepwalk.py:82-87 | From a graph node in a well-formed graph with no isolated node, the inner loop never raises. |
| `WalkSampler.BatchFromSucceeds` | deepwalk.py:73-89 | Corrected. Under the same conditions, with a non-empty node list or a start node in the graph, the rest of the batch never raises. |
| `WalkSampler.NoDeadEndsSucceeds` | deepwalk.py:73-89 | Corrected. Under the same conditions, the whole batch succeeds. |
| `WalkSampler.ExtendDeadEnd` | deepwalk.py:82-86 | A walk still short of the target at a node with an empty neighbour list raises IndexError. It is not truncated. |
| `WalkSampler.PassFails` | deepwalk.py:73-91 | A pass that raises, at any point of the batch, makes the rest of the call raise the same exception. The walks recorded so far are not returned. |
| `WalkSampler.BatchErrorComesFromAPass` | deepwalk.py:73-91 | A batch that raises has a pass left, and its exception comes from that pass or from the passes after it. |
| `WalkSampler.FirstWalkFails` | deepwalk.py:73-91 | If the first pass raises, the whole call raises the same exception. |
| `WalkSampler.FixedStartDeadEndFails` | deepwalk.py:79-86 | Corrected. A fixed start node without neighbours makes every call with at least one iteration and at least two nodes requested raise IndexError. As written, NameError comes first. |
| `WalkSampler.AllDeadEndsFail` | deepwalk.py:76-86 | On a graph of isolated nodes, a random-start batch that needs a step raises IndexError. This holds in the corrected reading and in the code as written. |
| `WalkSampler.FixedStartUnknownFails` | deepwalk.py:83 | Corrected. A fixed start node that is not in the graph raises the networkx error once a step is needed. As written, NameError comes first. |
| `WalkSampler.GraphUnsetFails` | deepwalk.py:76-83 | With `self.G` unset, the first access to the graph raises AttributeError. For a random start this holds in the code as written too. |
| `WalkSampler.FixedStartDiscrepancy` | deepwalk.py:78-81 | Take a well-formed graph without isolated nodes, a start node in it, and at least one iteration. The corrected batch returns `iterations` walks that all begin at the start node, while the code as written raises NameError. |
| `GraphSource.ChainedComparisonMeansAllNone` | deepwalk.py:30 | The chained comparison `G == adjlist_path == edgelist_path == None` holds exactly when all three inputs are None. |
| `GraphSource.SelectSource` | deepwalk.py:30-41 | Fails exactly when all three inputs are None. Otherwise it picks `G`, then `adjlist_path`, then `edgelist_path`, the first that is not None. |
| `GraphSource.SeveralInputsAccepted` | deepwalk.py:36-41 | Giving both file paths is not an error. `G` wins if given, otherwise the adjacency list. |
| `GraphSource.Construct` | deepwalk.py:20-44 | `__init__` raises ValueError exactly when all inputs are None. Otherwise `self.G` is the given graph or the chosen reader's result, and unset when the reader failed. |
| `GraphSource.LoadFailureSurfacesInWalk` | deepwalk.py:34-44 | A swallowed load error leaves `self.G` unset. The object's next walk that touches the graph raises AttributeError. As written this holds for a random start; in the corrected reading it holds for a fixed start too. |
| `Word2VecConfig.BuildWord2Vec` | deepwalk.py:119-127 | Returns None exactly when `walk_path` is absent or None. Otherwise it passes the corpus, keeps supplied size, window and workers unchanged (defaults 100, 5, 2), and fixes `min_count=0`, `sg=1`, `hs=1`. |
| `Word2VecConfig.OnlyNamedKeywordsMatter` | deepwalk.py:119-125 | Keywords other than `walk_path`, `size`, `window` and `workers` have no effect. |
| `Word2VecConfig.ExplicitDefaultsAreDefaults` | deepwalk.py:123-125 | Passing 100, 5 and 2 explicitly is the same as leaving them out. |
| `Word2VecConfig.WalksAloneUseDefaults` | deepwalk.py:119-127 | A walk batch passed alone, even an empty one, becomes a Word2Vec call with the default and fixed settings. |
| `Scenarios.TriangleFromA` | deepwalk.py:48-91 | Corrected. On the triangle, two walks of three nodes from A: both start at A, follow edges and stay on the triangle, whatever the draws. |
| `Scenarios.TriangleFromAAsWritten` | deepwalk.py:79-81 | The same call, as written, raises NameError. |
| `Scenarios.IsolatedFromZ` | deepwalk.py:79-86 | Five nodes requested from the isolated node Z. The corrected sampler raises IndexError and does not return `['Z']`. As written, the call raises NameError. |
| `Scenarios.IsolatedRandomStart` | deepwalk.py:75-86 | Five nodes requested from a random start on the isolated graph. As written, the call raises IndexError. |
| `Scenarios.IsolatedSingleNode` | deepwalk.py:77-82 | One node requested from Z. The corrected sampler returns `[['Z']]` without a lookup. As written, the call raises NameError. |

## Findings

| source | as written | input that shows it | evidently intended | confidence | as-written member | corrected member |
|---|---|---|---|---|---|---|
| deepwalk.py:81 | `current_node = s_node`, and `s_node` is bound only when `start_node is None` | triangle A-B-C, `random_walk(2, start_node='A', random_walk_times=3)` raises NameError on the first pass | `current_node = walk_path[0]`, so fixed-start walks begin at `start_node` and go on from it | not executed | `WalkSampler.RandomWalkAsWritten` (shown by `WalkSampler.AsWrittenVersusCorrected`, `WalkSampler.FixedStartDiscrepancy`, `Scenarios.TriangleFromAAsWritten`) | `WalkSampler.WalkBatch`, implemented by `WalkSampler.RandomWalk` (proved by `WalkSampler.WalkBatchOk`, `Scenarios.TriangleFromA`) |

## Left out

- Reading files with `nx.read_adjlist` and `nx.read_edgelist` (lines 39, 41). These are networkx parsers. They are parameters of `Construct` that yield a graph, or None when they raise.
- Printing the caught exception (line 44). This is output only. The model keeps its effect, which is that `self.G` stays unset.
- Training in `Word2Vec(...)` (line 127). This is a foreign, floating-point, multi-worker library. The model keeps only the arguments of the call, and the model it returns is not represented.
- The uniform distribution of `random.choice` and the global generator state. Draws are the injected `rand` function. Probabilities are not modelled.
- networkx graph internals, the order of node enumeration beyond the given `nodes` sequence, and graphs whose `neighbors` disagree with their `nodes`. Lemmas that need consistency assume `WellFormed`.
- Python's dynamic typing. `iterations` and `random_walk_times` are integers. Keyword values are `PyValue`s passed through unchanged. Node identifiers are any type with equality.
- The `DeepWalk` object as a Dafny class. Its one field `self.G` is never updated after `__init__`, so it is an `Option<Graph<N>>` argument of the walk operations.

/** The keyword resolution of `DeepWalk.buildWord2Vec`: which arguments reach the gensim
    `Word2Vec` constructor. Training itself is outside the model. */
module Word2VecConfig {
  import opened Wrappers

  /** The Python values a keyword argument can hold. */
  datatype PyValue<N> = PyNone | PyInt(i: int) | PyWalks(walks: seq<seq<N>>) | PyOther(repr: string)

  /** The arguments of the `Word2Vec(...)` call on line 127. */
  datatype Word2VecCall<N> = Word2VecCall(
    sentences: PyValue<N>,
    size: PyValue<N>,
    window: PyValue<N>,
    minCount: int,
    workers: PyValue<N>,
    sg: int,
    hs: int)

  const DefaultSize := 100
  const DefaultWindow := 5
  const DefaultWorkers := 2

  /** `kwargs.get(key, default)`. */
  function Get<N>(kwargs: map<string, PyValue<N>>, key: string, default: PyValue<N>): PyValue<N>
  {
    if key in kwargs then kwargs[key] else default
  }

  /** `buildWord2Vec(**kwargs)`: None when there is no walk corpus, otherwise the Word2Vec call. */
  function BuildWord2Vec<N>(kwargs: map<string, PyValue<N>>): (r: Option<Word2VecCall<N>>)
    ensures r.None? <==> "walk_path" !in kwargs || kwargs["walk_path"].PyNone?
    ensures r.Some? ==> r.value.sentences == kwargs["walk_path"]
    ensures r.Some? ==> ("size" in kwargs ==> r.value.size == kwargs["size"]) &&
                        ("size" !in kwargs ==> r.value.size == PyInt(DefaultSize))
    ensures r.Some? ==> ("window" in kwargs ==> r.value.window == kwargs["window"]) &&
                        ("window" !in kwargs ==> r.value.window == PyInt(DefaultWindow))
    ensures r.Some? ==> ("workers" in kwargs ==> r.value.workers == kwargs["workers"]) &&
                        ("workers" !in kwargs ==> r.value.workers == PyInt(DefaultWorkers))
    ensures r.Some? ==> r.value.minCount == 0 && r.value.sg == 1 && r.value.hs == 1
  {
    var walkPath := Get(kwargs, "walk_path", PyNone);
    if walkPath.PyNone? then None
    else
      var size := Get(kwargs, "size", PyInt(DefaultSize));
      var window := Get(kwargs, "window", PyInt(DefaultWindow));
      var workers := Get(kwargs, "workers", PyInt(DefaultWorkers));
      Some(Word2VecCall(walkPath, size, window, 0, workers, 1, 1))
  }

  /** Keywords other than walk_path, size, window and workers have no effect. */
  lemma OnlyNamedKeywordsMatter<N>(a: map<string, PyValue<N>>, b: map<string, PyValue<N>>)
    requires forall key :: key in {"walk_path", "size", "window", "workers"} ==>
      (key in a <==> key in b) && (key in a ==> a[key] == b[key])
    ensures BuildWord2Vec(a) == BuildWord2Vec(b)
  {
    assert "walk_path" in {"walk_path", "size", "window", "workers"};
    assert "size" in {"walk_path", "size", "window", "workers"};
    assert "window" in {"walk_path", "size", "window", "workers"};
    assert "workers" in {"walk_path", "size", "window", "workers"};
  }

  /** Passing the defaults explicitly is the same as leaving them out. */
  lemma ExplicitDefaultsAreDefaults<N>(kwargs: map<string, PyValue<N>>)
    requires "size" !in kwargs && "window" !in kwargs && "workers" !in kwargs
    ensures BuildWord2Vec(kwargs["size" := PyInt(DefaultSize)]["window" := PyInt(DefaultWindow)]["workers" := PyInt(DefaultWorkers)])
         == BuildWord2Vec(kwargs)
  {
    var full := kwargs["size" := PyInt(DefaultSize)]["window" := PyInt(DefaultWindow)]["workers" := PyInt(DefaultWorkers)];
    assert ("walk_path" in full <==> "walk_path" in kwargs) && ("walk_path" in kwargs ==> full["walk_path"] == kwargs["walk_path"]);
  }

  /** A batch of walks handed over alone trains with size 100, window 5, 2 workers,
      min_count 0, skip-gram and hierarchical softmax; an empty batch is still handed over. */
  lemma WalksAloneUseDefaults<N>(walks: seq<seq<N>>)
    ensures BuildWord2Vec(map["walk_path" := PyWalks(walks)])
         == Some(Word2VecCall(PyWalks(walks), PyInt(100), PyInt(5), 0, PyInt(2), 1, 1))
  {
  }
}

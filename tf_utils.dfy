/**
 * The graph/eager compatibility runner and the shape check
 * (tensorflow_datasets/core/utils/tf_utils.py).
 */
module TfUtils {
  import opened Wrappers

  /** The identity `id(fct)` of a TensorFlow function. */
  datatype FnId = FnId(id: nat)

  /** A TensorFlow / NumPy dtype, by name. */
  datatype DType = DType(name: string)

  /** An input array as far as the runner looks at it: its dtype and static shape. */
  datatype NdArray = NdArray(dtype: DType, shape: seq<nat>)

  /** The cache key `(id(fct), input.dtype, input.shape)`. */
  datatype Signature = Signature(fct: FnId, dtype: DType, shape: seq<nat>)

  /** `_build_signature(run_args)`. */
  function BuildSignature(fct: FnId, input: NdArray): (s: Signature)
    ensures s.fct == fct && s.dtype == input.dtype && s.shape == input.shape
  {
    Signature(fct, input.dtype, input.shape)
  }

  /** Calls agree on the key exactly when function, dtype and shape all agree. */
  lemma SignatureIdentifiesCall(f: FnId, x: NdArray, g: FnId, y: NdArray)
    ensures BuildSignature(f, x) == BuildSignature(g, y) <==>
      f == g && x.dtype == y.dtype && x.shape == y.shape
  {
  }

  /**
   * A `GraphRun`: the graph built for one signature, its placeholder's dtype
   * and shape, and whether its session has been closed.
   */
  class GraphRun {
    const fct: FnId
    const placeholderDtype: DType
    const placeholderShape: seq<nat>
    var closed: bool

    /** `_build_graph_run`: a placeholder of the input's dtype and shape, an open session. */
    constructor (fct: FnId, input: NdArray)
      ensures this.fct == fct
      ensures placeholderDtype == input.dtype && placeholderShape == input.shape
      ensures !closed
    {
      this.fct := fct;
      placeholderDtype := input.dtype;
      placeholderShape := input.shape;
      closed := false;
    }
  }

  /** How `run` computed its result. */
  datatype Execution =
    | EagerCall(fct: FnId, input: NdArray)       // `fct(input_).numpy()`
    | SessionCall(graphRun: GraphRun, input: NdArray) // the cached session fed with `input_`

  /** `graphRun` was built for signature `s`. */
  predicate BuiltFor(graphRun: GraphRun, s: Signature)
  {
    graphRun.fct == s.fct && graphRun.placeholderDtype == s.dtype && graphRun.placeholderShape == s.shape
  }

  /** `TFGraphRunner`: memoises one compiled graph per signature in graph mode. */
  class GraphRunner {
    /** `_graph_run_cache`. */
    var cache: map<Signature, GraphRun>

    /** Every cached entry was built for its own key. */
    ghost predicate Valid()
      reads this
    {
      forall s :: s in cache ==> BuiltFor(cache[s], s)
    }

    constructor ()
      ensures Valid() && cache == map[]
    {
      cache := map[];
    }

    /**
     * `run(fct, input_)`; `eager` is `tf.executing_eagerly()`. In graph mode the
     * signature's entry is built and stored only when it is missing.
     */
    method Run(fct: FnId, input: NdArray, eager: bool) returns (exec: Execution)
      requires Valid()
      modifies this
      ensures Valid()
      ensures eager ==> cache == old(cache) && exec == EagerCall(fct, input)
      ensures !eager ==>
        var s := BuildSignature(fct, input);
        s in cache && exec == SessionCall(cache[s], input) && BuiltFor(cache[s], s) &&
        (s in old(cache) ==> cache == old(cache)) &&
        (s !in old(cache) ==>
          fresh(cache[s]) && !cache[s].closed && cache == old(cache)[s := cache[s]] &&
          |cache| == |old(cache)| + 1)
      ensures forall s :: s in old(cache) ==> s in cache && cache[s] == old(cache)[s]
      ensures |cache| <= |old(cache)| + 1
    {
      if eager {
        return EagerCall(fct, input);
      }
      var s := BuildSignature(fct, input);
      var graphRun: GraphRun;
      if s !in cache {
        graphRun := new GraphRun(fct, input);
        cache := cache[s := graphRun];
        assert cache.Keys == old(cache).Keys + {s};
      } else {
        graphRun := cache[s];
      }
      exec := SessionCall(graphRun, input);
    }

    /** `__del__`: closes the session of every cached entry. */
    method Close()
      requires Valid()
      modifies cache.Values
      ensures Valid()
      ensures forall s :: s in cache ==> cache[s].closed
    {
      var pending := cache.Values;
      while pending != {}
        invariant pending <= cache.Values
        invariant forall r :: r in cache.Values - pending ==> r.closed
        decreases pending
      {
        var r :| r in pending;
        r.closed := true;
        pending := pending - {r};
      }
    }
  }

  /** Calling twice with the same input reuses the entry; a new shape adds exactly one. */
  method CacheGrowth() returns (afterFirst: nat, afterRepeat: nat, afterNewShape: nat, sameEntry: bool)
    ensures afterFirst == 1 && afterRepeat == 1 && afterNewShape == 2
    ensures sameEntry
  {
    var runner := new GraphRunner();
    var sigmoid := FnId(0);
    var x := NdArray(DType("float32"), [5]);
    var first := runner.Run(sigmoid, x, false);
    afterFirst := |runner.cache|;
    var second := runner.Run(sigmoid, x, false);
    afterRepeat := |runner.cache|;
    sameEntry := first == second;
    var third := runner.Run(sigmoid, NdArray(DType("float32"), [2, 5]), false);
    afterNewShape := |runner.cache|;
  }

  /** Why `assert_shape_match` raises `ValueError`. */
  datatype ShapeError =
    | LengthMismatch(len1: nat, len2: nat)
    | DimensionMismatch(shape1: seq<int>, shape2: seq<Option<int>>)

  /** Every dimension of `shape1` equals the one `shape2` fixes; `None` matches anything. */
  function DimsMatch(shape1: seq<int>, shape2: seq<Option<int>>): (b: bool)
    requires |shape1| == |shape2|
    ensures b <==> forall i :: 0 <= i < |shape1| && shape2[i].Some? ==> shape1[i] == shape2[i].value
  {
    if shape1 == [] then true
    else (shape2[0].None? || shape1[0] == shape2[0].value) && DimsMatch(shape1[1..], shape2[1..])
  }

  /** `assert_shape_match(shape1, shape2)`: `None` when it returns, the error when it raises. */
  function AssertShapeMatch(shape1: seq<int>, shape2: seq<Option<int>>): (r: Option<ShapeError>)
    ensures |shape1| != |shape2| ==> r == Some(LengthMismatch(|shape1|, |shape2|))
    ensures r.None? <==>
      (|shape1| == |shape2| && forall i :: 0 <= i < |shape1| && shape2[i].Some? ==> shape1[i] == shape2[i].value)
    ensures |shape1| == |shape2| && r.Some? ==> r == Some(DimensionMismatch(shape1, shape2))
  {
    if |shape1| != |shape2| then Some(LengthMismatch(|shape1|, |shape2|))
    else if !DimsMatch(shape1, shape2) then Some(DimensionMismatch(shape1, shape2))
    else None
  }

  /** `(64, 64, 3)` matches `(None, None, 3)`; `(64, 64, 4)` does not, and the error names both shapes. */
  lemma ShapeMatchExamples()
    ensures AssertShapeMatch([64, 64, 3], [None, None, Some(3)]) == None
    ensures AssertShapeMatch([64, 64, 3], [Some(64), Some(64), Some(4)])
      == Some(DimensionMismatch([64, 64, 3], [Some(64), Some(64), Some(4)]))
  {
  }
}

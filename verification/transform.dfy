/** The user transformer pipeline (src/core/transform.ts): the data is passed
    through each transformer in turn, every one of them seeing the same headers. */
module Transform {
  import opened JsValues

  /** A transformer: from the data and the headers to the new data, or the
      exception it throws. */
  type Transformer = (Value, Value) -> Outcome

  /** The `fns` argument: missing, one transformer, or an array of them. */
  datatype Fns = NoFns | One(fn: Transformer) | Many(fns: seq<Transformer>)

  /** The transformers that run, in order, once a lone function is wrapped in an array. */
  function Listed(fns: Fns): (r: seq<Transformer>)
    ensures fns.NoFns? ==> r == []
    ensures fns.One? ==> r == [fns.fn]
    ensures fns.Many? ==> r == fns.fns
  {
    match fns
    case NoFns => []
    case One(fn) => [fn]
    case Many(fs) => fs
  }

  /** The transformers run in order, each on the previous one's result; the
      first exception ends the run and leaves transform with it. */
  function Fold(data: Value, headers: Value, fs: seq<Transformer>): Outcome {
    if fs == [] then Ok(data)
    else
      var n := |fs| - 1;
      match Fold(data, headers, fs[..n])
      case Err(e) => Err(e)
      case Ok(d) => fs[n](d, headers)
  }

  /** Running further transformers after an outcome: an exception passes
      through, a value is handed to them. */
  function Resume(o: Outcome, headers: Value, fs: seq<Transformer>): Outcome {
    match o
    case Err(e) => Err(e)
    case Ok(d) => Fold(d, headers, fs)
  }

  /** What transform returns, or the exception it throws. */
  function Transformed(data: Value, headers: Value, fns: Fns): Outcome {
    if fns.NoFns? then Ok(data) else Fold(data, headers, Listed(fns))
  }

  /** transform: runs the transformers over the data, left to right; an
      exception from one of them leaves transform at once. */
  method Run(data: Value, headers: Value, fns: Fns) returns (r: Outcome)
    ensures r == Transformed(data, headers, fns)
  {
    if fns.NoFns? {
      return Ok(data);
    }
    var fs := Listed(fns);
    var d := data;
    var i := 0;
    assert fs[..0] == [];
    while i < |fs|
      invariant 0 <= i <= |fs|
      invariant Fold(data, headers, fs[..i]) == Ok(d)
    {
      var next := fs[i](d, headers);
      FoldStep(data, headers, fs, i, d);
      if next.Err? {
        FirstThrowPropagates(data, headers, fs, i, d, next.e);
        return next;
      }
      d := next.v;
      i := i + 1;
    }
    assert fs[..i] == fs;
    r := Ok(d);
  }

  /** With no transformers, or an empty array of them, the data comes back unchanged. */
  lemma NothingToRun(data: Value, headers: Value)
    ensures Transformed(data, headers, NoFns) == Ok(data)
    ensures Transformed(data, headers, Many([])) == Ok(data)
  {
    assert Listed(Many([])) == [];
  }

  /** A lone transformer behaves exactly like the one-element array holding it. */
  lemma OneIsMany(data: Value, headers: Value, fn: Transformer)
    ensures Transformed(data, headers, One(fn)) == Transformed(data, headers, Many([fn]))
    ensures Transformed(data, headers, One(fn)) == fn(data, headers)
  {
    var fs := [fn];
    assert Listed(One(fn)) == fs && Listed(Many([fn])) == fs;
    assert fs[..0] == [];
    assert Fold(data, headers, fs[..0]) == Ok(data);
  }

  /** Running f then g is running f and then running g on its result; an
      exception from f skips g. */
  lemma {:induction false} FoldAppend(data: Value, headers: Value, f: seq<Transformer>, g: seq<Transformer>)
    ensures Fold(data, headers, f + g) == Resume(Fold(data, headers, f), headers, g)
  {
    if g == [] {
      assert f + g == f;
    } else {
      var n := |g| - 1;
      assert (f + g)[..|f| + n] == f + g[..n];
      FoldAppend(data, headers, f, g[..n]);
    }
  }

  /** The fold read from the front: the first transformer gets the original data
      and the headers, and the rest run on its result with the same headers. */
  lemma FoldFront(data: Value, headers: Value, fs: seq<Transformer>)
    requires fs != []
    ensures Fold(data, headers, fs) == Resume(fs[0](data, headers), headers, fs[1..])
  {
    assert fs == [fs[0]] + fs[1..];
    assert [fs[0]][..0] == [];
    FoldAppend(data, headers, [fs[0]], fs[1..]);
  }

  /** One more transformer on a run that has returned so far. */
  lemma FoldStep(data: Value, headers: Value, fs: seq<Transformer>, i: nat, d: Value)
    requires i < |fs| && Fold(data, headers, fs[..i]) == Ok(d)
    ensures Fold(data, headers, fs[..i + 1]) == fs[i](d, headers)
  {
    assert fs[..i + 1][..i] == fs[..i];
  }

  /** An exception thrown by transformer i, on the result of the ones before
      it, is what transform throws: none of the later transformers runs. */
  lemma FirstThrowPropagates(data: Value, headers: Value, fs: seq<Transformer>, i: nat, d: Value, e: Value)
    requires i < |fs| && Fold(data, headers, fs[..i]) == Ok(d) && fs[i](d, headers) == Err(e)
    ensures Fold(data, headers, fs) == Err(e)
    ensures Transformed(data, headers, Many(fs)) == Err(e)
  {
    FoldStep(data, headers, fs, i, d);
    FoldAppend(data, headers, fs[..i + 1], fs[i + 1..]);
    assert fs[..i + 1] + fs[i + 1..] == fs;
  }

  /** transform(d, h, f ++ g) is transform(d, h, f) followed by transform(., h, g). */
  lemma TransformCompose(data: Value, headers: Value, f: seq<Transformer>, g: seq<Transformer>)
    ensures Transformed(data, headers, Many(f + g))
            == Resume(Transformed(data, headers, Many(f)), headers, g)
    ensures Transformed(data, headers, Many(f)).Ok? ==>
            Transformed(data, headers, Many(f + g))
            == Transformed(Transformed(data, headers, Many(f)).v, headers, Many(g))
  {
    FoldAppend(data, headers, f, g);
  }
}

/** Merging the default config with a request's own config
    (src/core/mergeConfig.ts): each key is merged by the strategy its name selects. */
module MergeConfig {
  import opened JsValues
  import Util

  /** defaultStrat: the request's value when it is defined, the default otherwise. */
  function DefaultStrat(val1: Value, val2: Value): (r: Value)
    ensures val2 != Undefined ==> r == val2
    ensures val2 == Undefined ==> r == val1
  {
    if TypeOf(val2) != "undefined" then val2 else val1
  }

  /** formVal2Strat: the request's value, or undefined; the default is never used. */
  function FromVal2Strat(val1: Value, val2: Value): (r: Value)
    ensures r == val2
  {
    if TypeOf(val2) != "undefined" then val2 else Undefined
  }

  /** deepMergeStrat: a plain-object request value is deep-merged over the
      default; another defined request value wins outright; without one, a
      plain-object default is deep-copied and any other default is kept. The
      deep merge is the host's, and its result is a fresh plain object. */
  function DeepMergeStrat(h: Host, val1: Value, val2: Value): (r: Value)
    ensures Util.IsPlainObject(val2) ==> r == Obj(h.deepMerge([val1, val2]), "Object")
    ensures !Util.IsPlainObject(val2) && val2 != Undefined ==> r == val2
    ensures val2 == Undefined && Util.IsPlainObject(val1) ==> r == Obj(h.deepMerge([val1]), "Object")
    ensures val2 == Undefined && !Util.IsPlainObject(val1) ==> r == val1
  {
    if Util.IsPlainObject(val2) then Obj(h.deepMerge([val1, val2]), "Object")
    else if TypeOf(val2) != "undefined" then val2
    else if Util.IsPlainObject(val1) then Obj(h.deepMerge([val1]), "Object")
    else val1
  }

  /** The entries of the strategy table. */
  datatype Strategy = Default | FromVal2 | DeepMerge

  /** The strategy table: url, params and data take the request's value only,
      headers and auth are deep-merged, every other key uses the default. */
  function StratFor(key: string): Strategy {
    if key in ["url", "params", "data"] then FromVal2
    else if key in ["headers", "auth"] then DeepMerge
    else Default
  }

  /** Which keys take the request's value only and which are deep-merged. */
  lemma StrategyTable(key: string)
    ensures StratFor(key) == FromVal2 <==> key in ["url", "params", "data"]
    ensures StratFor(key) == DeepMerge <==> key in ["headers", "auth"]
  {
  }

  function Apply(h: Host, s: Strategy, val1: Value, val2: Value): Value {
    match s
    case Default => DefaultStrat(val1, val2)
    case FromVal2 => FromVal2Strat(val1, val2)
    case DeepMerge => DeepMergeStrat(h, val1, val2)
  }

  /** The value mergeField writes for key: its strategy applied to the two configs' values. */
  function FieldValue(h: Host, config1: Value, config2: Value, key: string): Value {
    Apply(h, StratFor(key), Member(config1, key), Member(config2, key))
  }

  /** A missing request config is read as {}. */
  function Config2(config2: Value): (c: Value)
    ensures Truthy(config2) ==> c == config2
    ensures !Truthy(config2) ==> c == Obj([], "Object")
  {
    if Truthy(config2) then config2 else Obj([], "Object")
  }

  /** The merged object after mergeField has run for `keys`, in order. */
  function MergeAll(h: Host, config1: Value, config2: Value, ps: seq<Prop>, keys: seq<string>): seq<Prop> {
    if keys == [] then ps
    else
      var n := |keys| - 1;
      Assign(MergeAll(h, config1, config2, ps, keys[..n]), keys[n], FieldValue(h, config1, config2, keys[n]))
  }

  /** The merged object after the second loop has visited `keys`: only keys
      whose request value is falsy are merged. */
  function MergeMissing(h: Host, config1: Value, config2: Value, ps: seq<Prop>, keys: seq<string>): seq<Prop> {
    if keys == [] then ps
    else
      var n := |keys| - 1;
      MissingStep(h, config1, config2, MergeMissing(h, config1, config2, ps, keys[..n]), keys[n])
  }

  /** One turn of the second loop: mergeField runs only when the request value is falsy. */
  function MissingStep(h: Host, config1: Value, config2: Value, ps: seq<Prop>, key: string): seq<Prop> {
    if !Truthy(Member(config2, key)) then Assign(ps, key, FieldValue(h, config1, config2, key)) else ps
  }

  /** What mergeConfig returns: every key of the request config merged, then
      every key of the default config whose request value is falsy. */
  function Merged(h: Host, config1: Value, config2: Value): seq<Prop> {
    var c2 := Config2(config2);
    var first := MergeAll(h, config1, c2, [], Keys(OwnEntries(c2)));
    MergeMissing(h, config1, c2, first, Keys(OwnEntries(config1)))
  }

  /** mergeConfig: a fresh object filled by two for...in loops calling mergeField. */
  method Merge(h: Host, config1: Value, config2: Value) returns (r: Value)
    ensures r == Obj(Merged(h, config1, config2), "Object")
  {
    var c2 := config2;
    if !Truthy(c2) {
      c2 := Obj([], "Object");
    }
    var config := new JsObject([], "Object");
    MergeEach(h, config, config1, c2, Keys(OwnEntries(c2)));
    MergeEachMissing(h, config, config1, c2, Keys(OwnEntries(config1)));
    r := config.Snapshot();
  }

  /** The first for...in loop: mergeField for every key of the request config. */
  method MergeEach(h: Host, config: JsObject, config1: Value, config2: Value, keys: seq<string>)
    modifies config
    ensures config.props == MergeAll(h, config1, config2, old(config.props), keys)
  {
    ghost var start := config.props;
    var i := 0;
    assert keys[..0] == [];
    while i < |keys|
      invariant 0 <= i <= |keys|
      invariant config.props == MergeAll(h, config1, config2, start, keys[..i])
    {
      MergeAllSnoc(h, config1, config2, start, keys, i);
      MergeField(h, config, config1, config2, keys[i]);
      i := i + 1;
    }
    assert keys[..i] == keys;
  }

  /** The second for...in loop: mergeField for every key of the default config
      whose request value is falsy. */
  method MergeEachMissing(h: Host, config: JsObject, config1: Value, config2: Value, keys: seq<string>)
    modifies config
    ensures config.props == MergeMissing(h, config1, config2, old(config.props), keys)
  {
    ghost var start := config.props;
    var i := 0;
    assert keys[..0] == [];
    while i < |keys|
      invariant 0 <= i <= |keys|
      invariant config.props == MergeMissing(h, config1, config2, start, keys[..i])
    {
      MergeMissingSnoc(h, config1, config2, start, keys, i);
      MergeFieldIfMissing(h, config, config1, config2, keys[i]);
      i := i + 1;
    }
    assert keys[..i] == keys;
  }

  lemma MergeAllSnoc(h: Host, config1: Value, config2: Value, ps: seq<Prop>, keys: seq<string>, i: nat)
    requires i < |keys|
    ensures MergeAll(h, config1, config2, ps, keys[..i + 1])
            == Assign(MergeAll(h, config1, config2, ps, keys[..i]), keys[i], FieldValue(h, config1, config2, keys[i]))
  {
    assert keys[..i + 1][..i] == keys[..i];
  }

  lemma MergeMissingSnoc(h: Host, config1: Value, config2: Value, ps: seq<Prop>, keys: seq<string>, i: nat)
    requires i < |keys|
    ensures MergeMissing(h, config1, config2, ps, keys[..i + 1])
            == MissingStep(h, config1, config2, MergeMissing(h, config1, config2, ps, keys[..i]), keys[i])
  {
    assert keys[..i + 1][..i] == keys[..i];
  }

  /** The body of the second loop. */
  method MergeFieldIfMissing(h: Host, config: JsObject, config1: Value, config2: Value, key: string)
    modifies config
    ensures config.props == MissingStep(h, config1, config2, old(config.props), key)
  {
    if !Truthy(Member(config2, key)) {
      MergeField(h, config, config1, config2, key);
    }
  }

  /** mergeField: writes the merged value of one key; neither config is touched. */
  method MergeField(h: Host, config: JsObject, config1: Value, config2: Value, key: string)
    modifies config
    ensures config.props == Assign(old(config.props), key, FieldValue(h, config1, config2, key))
  {
    var strat := StratFor(key);
    var v := Apply(h, strat, Member(config1, key), Member(config2, key));
    config.Set(key, v);
  }

  // ---------------------------------------------------------------------------
  // Properties of the merge.

  /** After the first loop, a visited key holds its merged value; any other key is as before. */
  lemma {:induction false} MergeAllLookup(h: Host, config1: Value, config2: Value, ps: seq<Prop>, keys: seq<string>, k: string)
    ensures Lookup(MergeAll(h, config1, config2, ps, keys), k)
            == if k in keys then FieldValue(h, config1, config2, k) else Lookup(ps, k)
  {
    if keys != [] {
      var n := |keys| - 1;
      var q := MergeAll(h, config1, config2, ps, keys[..n]);
      MergeAllLookup(h, config1, config2, ps, keys[..n], k);
      SnocMember(keys, k);
      AssignLookup(q, keys[n], FieldValue(h, config1, config2, keys[n]), k);
    }
  }

  /** After the first loop, the keys are those already there plus the visited ones. */
  lemma {:induction false} MergeAllHas(h: Host, config1: Value, config2: Value, ps: seq<Prop>, keys: seq<string>, k: string)
    ensures k in Keys(MergeAll(h, config1, config2, ps, keys)) <==> k in Keys(ps) || k in keys
  {
    if keys != [] {
      var n := |keys| - 1;
      MergeAllHas(h, config1, config2, ps, keys[..n], k);
      SnocMember(keys, k);
    }
  }

  /** After the second loop, a visited key with a falsy request value holds its
      merged value; any other key is as before. */
  lemma {:induction false} MergeMissingLookup(h: Host, config1: Value, config2: Value, ps: seq<Prop>, keys: seq<string>, k: string)
    ensures Lookup(MergeMissing(h, config1, config2, ps, keys), k)
            == if k in keys && !Truthy(Member(config2, k)) then FieldValue(h, config1, config2, k) else Lookup(ps, k)
  {
    if keys != [] {
      var n := |keys| - 1;
      var q := MergeMissing(h, config1, config2, ps, keys[..n]);
      MergeMissingLookup(h, config1, config2, ps, keys[..n], k);
      assert MergeMissing(h, config1, config2, ps, keys) == MissingStep(h, config1, config2, q, keys[n]);
      SnocMember(keys, k);
      AssignLookup(q, keys[n], FieldValue(h, config1, config2, keys[n]), k);
    }
  }

  /** After the second loop, the keys are those already there plus the visited
      ones whose request value is falsy. */
  lemma {:induction false} MergeMissingHas(h: Host, config1: Value, config2: Value, ps: seq<Prop>, keys: seq<string>, k: string)
    ensures k in Keys(MergeMissing(h, config1, config2, ps, keys))
            <==> k in Keys(ps) || (k in keys && !Truthy(Member(config2, k)))
  {
    if keys != [] {
      var n := |keys| - 1;
      var q := MergeMissing(h, config1, config2, ps, keys[..n]);
      MergeMissingHas(h, config1, config2, ps, keys[..n], k);
      assert MergeMissing(h, config1, config2, ps, keys) == MissingStep(h, config1, config2, q, keys[n]);
      SnocMember(keys, k);
    }
  }

  /** A key is in a non-empty list when it is in all but the last entry or is the last. */
  lemma SnocMember(keys: seq<string>, k: string)
    requires keys != []
    ensures k in keys <==> k in keys[..|keys| - 1] || k == keys[|keys| - 1]
  {
    assert keys == keys[..|keys| - 1] + [keys[|keys| - 1]];
  }

  /** The merged keys are exactly the keys of the two configs. */
  lemma MergedKeys(h: Host, config1: Value, config2: Value)
    ensures forall k :: k in Keys(Merged(h, config1, config2))
                        <==> k in Keys(OwnEntries(config1)) || k in Keys(OwnEntries(Config2(config2)))
  {
    var c2 := Config2(config2);
    var keys2 := Keys(OwnEntries(c2));
    var keys1 := Keys(OwnEntries(config1));
    var first := MergeAll(h, config1, c2, [], keys2);
    forall k ensures k in Keys(Merged(h, config1, config2)) <==> k in keys1 || k in keys2 {
      MergeAllHas(h, config1, c2, [], keys2, k);
      MergeMissingHas(h, config1, c2, first, keys1, k);
      if k !in keys2 {
        LookupMissing(OwnEntries(c2), k);
      }
    }
  }

  /** Every merged key holds the value its strategy gives for the two configs'
      values, whichever loop wrote it, and however often: the second loop's
      falsy check re-merges a key to the value the first loop gave it. */
  lemma MergedValue(h: Host, config1: Value, config2: Value, k: string)
    requires k in Keys(Merged(h, config1, config2))
    ensures Lookup(Merged(h, config1, config2), k) == FieldValue(h, config1, Config2(config2), k)
  {
    var c2 := Config2(config2);
    var keys2 := Keys(OwnEntries(c2));
    var keys1 := Keys(OwnEntries(config1));
    var first := MergeAll(h, config1, c2, [], keys2);
    MergeAllLookup(h, config1, c2, [], keys2, k);
    MergeAllHas(h, config1, c2, [], keys2, k);
    MergeMissingLookup(h, config1, c2, first, keys1, k);
    MergeMissingHas(h, config1, c2, first, keys1, k);
  }

  /** url, params and data come from the request config alone: the merged
      value is the request's value, or undefined, whatever the defaults say. */
  lemma RequestOnlyKeys(h: Host, config1: Value, config2: Value, key: string)
    requires key in ["url", "params", "data"]
    ensures Lookup(Merged(h, config1, config2), key) == Member(Config2(config2), key)
  {
    MergedKeys(h, config1, config2);
    if key in Keys(Merged(h, config1, config2)) {
      MergedValue(h, config1, config2, key);
    } else {
      assert key !in Keys(OwnEntries(Config2(config2)));
      LookupMissing(OwnEntries(Config2(config2)), key);
      LookupMissing(Merged(h, config1, config2), key);
    }
  }

  /** A key only the defaults have keeps the default's value under the default strategy. */
  lemma DefaultsFillIn(h: Host, config1: Value, config2: Value, key: string)
    requires StratFor(key) == Default
    requires key in Keys(OwnEntries(config1)) && key !in Keys(OwnEntries(Config2(config2)))
    ensures Lookup(Merged(h, config1, config2), key) == Member(config1, key)
  {
    MergedKeys(h, config1, config2);
    MergedValue(h, config1, config2, key);
    LookupMissing(OwnEntries(Config2(config2)), key);
  }

  /** A missing request config merges as {}. */
  lemma MissingConfig2(h: Host, config1: Value, config2: Value)
    requires !Truthy(config2)
    ensures Merged(h, config1, config2) == Merged(h, config1, Obj([], "Object"))
  {
  }
}

/** Type-tag predicates and the property-copying helper (src/helpers/util.ts). */
module Util {
  import opened JsValues

  const DateTag := "[object Date]"

  /** The tag a plain object reports: what the plain-object check means to compare against. */
  const PlainObjectTag := "[object Object]"

  /** The tag the plain-object check in src/helpers/util.ts actually compares against. */
  const PlainObjectTagAsWritten := "[object, object]"

  /** isDate: the value's class is Date (DateTagged: its type tag is "[object Date]"). */
  predicate IsDate(v: Value)
    ensures IsDate(v) <==> v.Date? || (v.Obj? && v.cls == "Date")
  {
    ClassName(v) == "Date"
  }

  /** isDate holds exactly when the type tag is "[object Date]". */
  lemma DateTagged(v: Value)
    ensures IsDate(v) <==> ToStringTag(v) == DateTag
  {
    TagNames(v, "Date");
  }

  /** Two type tags are equal exactly when the class names inside them are. */
  lemma TagNames(v: Value, name: string)
    ensures ToStringTag(v) == "[object " + name + "]" <==> ClassName(v) == name
  {
    var t, u := ToStringTag(v), "[object " + name + "]";
    if t == u {
      assert ClassName(v) == t[8..|t| - 1] == u[8..|u| - 1] == name;
    }
  }

  /** isObject: not null, and typeof reports "object". */
  predicate IsObject(v: Value)
    ensures IsObject(v) <==> v.Date? || v.Arr? || v.Obj?
  {
    v != Null && TypeOf(v) == "object"
  }

  /** isPlainObject as intended: the value's class is Object
      (PlainObjectTagged: its type tag is "[object Object]"). */
  predicate IsPlainObject(v: Value)
    ensures IsPlainObject(v) <==> v.Obj? && v.cls == "Object"
  {
    ClassName(v) == "Object"
  }

  /** The intended isPlainObject holds exactly when the type tag is "[object Object]". */
  lemma PlainObjectTagged(v: Value)
    ensures IsPlainObject(v) <==> ToStringTag(v) == PlainObjectTag
  {
    TagNames(v, "Object");
  }

  /** isPlainObject as written, comparing against "[object, object]". */
  predicate IsPlainObjectAsWritten(v: Value) {
    ToStringTag(v) == PlainObjectTagAsWritten
  }

  /** Every type tag reads "[object " + name + "]", with a space where the
      literal of the as-written check has a comma, so that check never holds. */
  lemma PlainObjectAsWrittenNeverHolds(v: Value)
    ensures !IsPlainObjectAsWritten(v)
  {
    assert ToStringTag(v)[7] == ' ';
    assert PlainObjectTagAsWritten[7] == ',';
  }

  /** A plain object { a: 1 } that the intended check accepts and the as-written check rejects. */
  lemma PlainObjectAsWrittenMissesPlainObject()
    ensures var v := Obj([("a", Num(1))], "Object");
            IsPlainObject(v) && !IsPlainObjectAsWritten(v)
  {
    PlainObjectAsWrittenNeverHolds(Obj([("a", Num(1))], "Object"));
  }

  /** The properties of `to` after each property of `from` is assigned onto it in order. */
  function Extended(to: seq<Prop>, from: seq<Prop>): seq<Prop>
    decreases |from|
  {
    if from == [] then to else Extended(Assign(to, from[0].0, from[0].1), from[1..])
  }

  /** extend: copies every enumerable property of `from` onto `to` and returns `to`. */
  method Extend(to: JsObject, from: Value) returns (r: JsObject)
    modifies to
    ensures r == to
    ensures to.props == Extended(old(to.props), OwnEntries(from))
  {
    var src := OwnEntries(from);
    var i := 0;
    while i < |src|
      invariant 0 <= i <= |src|
      invariant Extended(to.props, src[i..]) == Extended(old(to.props), src)
    {
      assert src[i..][1..] == src[i + 1..];
      to.Set(src[i].0, src[i].1);
      i := i + 1;
    }
    r := to;
  }

  /** After extend, each key of `from` holds from's value, every other key keeps
      its old value, and the old keys keep their places ahead of the new ones. */
  lemma {:induction false} ExtendedContents(to: seq<Prop>, from: seq<Prop>)
    requires DistinctKeys(from)
    ensures forall k :: Lookup(Extended(to, from), k)
                        == if k in Keys(from) then Lookup(from, k) else Lookup(to, k)
    ensures Keys(to) <= Keys(Extended(to, from))
    ensures forall k :: k in Keys(Extended(to, from)) <==> k in Keys(to) || k in Keys(from)
    decreases |from|
  {
    if from != [] {
      var to' := Assign(to, from[0].0, from[0].1);
      AssignKeys(to, from[0].0, from[0].1);
      DistinctCons(from[0], from[1..]);
      assert [from[0]] + from[1..] == from;
      ExtendedContents(to', from[1..]);
    }
  }
}

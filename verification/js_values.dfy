/** The JavaScript values that flow through the request pipeline, the property
    lists of plain objects, and the host behaviour the pipeline calls but does
    not define (JSON, dates, deep merging, the transport). */
module JsValues {

  /** A JavaScript value. Objects keep their own enumerable properties in
      insertion order (Object.keys order) and the class name that
      Object.prototype.toString reports for them ("Object", "FormData", ...). */
  datatype Value =
    | Undefined
    | Null
    | Bool(b: bool)
    | Num(n: int)
    | Str(s: string)
    | Date(time: int)
    | Arr(elems: seq<Value>)
    | Obj(props: seq<Prop>, cls: string)
    | Fn(id: nat)

  /** One own property of an object: its key and its value. */
  type Prop = (string, Value)

  datatype Option<+T> = None | Some(value: T)

  /** The settled state of a promise: fulfilled with a value or rejected with a reason. */
  datatype Outcome = Ok(v: Value) | Err(e: Value)

  /** What a TypeError thrown by the engine looks like to the pipeline. */
  const TypeError: Value := Obj([("name", Str("TypeError"))], "Error")

  /** ToBoolean: the values an `if (x)` test accepts. */
  predicate Truthy(v: Value) {
    match v
    case Undefined => false
    case Null => false
    case Bool(b) => b
    case Num(n) => n != 0
    case Str(s) => s != ""
    case _ => true
  }

  /** The `typeof` operator. */
  function TypeOf(v: Value): string {
    match v
    case Undefined => "undefined"
    case Bool(_) => "boolean"
    case Num(_) => "number"
    case Str(_) => "string"
    case Fn(_) => "function"
    case _ => "object"
  }

  /** The class name inside Object.prototype.toString's "[object ...]" tag. */
  function ClassName(v: Value): string {
    match v
    case Undefined => "Undefined"
    case Null => "Null"
    case Bool(_) => "Boolean"
    case Num(_) => "Number"
    case Str(_) => "String"
    case Date(_) => "Date"
    case Arr(_) => "Array"
    case Obj(_, cls) => cls
    case Fn(_) => "Function"
  }

  /** Object.prototype.toString.call(v). */
  function ToStringTag(v: Value): string {
    "[object " + ClassName(v) + "]"
  }

  // ---------------------------------------------------------------------------
  // Property lists: the own properties of an object, in key order.

  function Keys(ps: seq<Prop>): (ks: seq<string>)
    ensures |ks| == |ps|
    ensures forall i :: 0 <= i < |ps| ==> ks[i] == ps[i].0
  {
    if ps == [] then [] else [ps[0].0] + Keys(ps[1..])
  }

  /** JavaScript objects never hold the same key twice. */
  ghost predicate DistinctKeys(ps: seq<Prop>) {
    forall i, j :: 0 <= i < j < |ps| ==> ps[i].0 != ps[j].0
  }

  /** obj[k]: the value of the first property named k, or undefined. */
  function Lookup(ps: seq<Prop>, k: string): Value {
    if ps == [] then Undefined
    else if ps[0].0 == k then ps[0].1
    else Lookup(ps[1..], k)
  }

  /** A key the object does not have reads as undefined. */
  lemma {:induction false} LookupMissing(ps: seq<Prop>, k: string)
    requires k !in Keys(ps)
    ensures Lookup(ps, k) == Undefined
  {
    if ps != [] {
      assert Keys(ps) == [ps[0].0] + Keys(ps[1..]);
      LookupMissing(ps[1..], k);
    }
  }

  /** obj[k] = v: an existing key keeps its place, a new key goes last. */
  function Assign(ps: seq<Prop>, k: string, v: Value): (r: seq<Prop>)
    ensures Lookup(r, k) == v
    ensures forall k' :: k' != k ==> Lookup(r, k') == Lookup(ps, k')
    ensures forall k' :: k' in Keys(r) <==> k' in Keys(ps) || k' == k
  {
    if ps == [] then [(k, v)]
    else if ps[0].0 == k then
      [(k, v)] + ps[1..]
    else
      var rest := Assign(ps[1..], k, v);
      assert ([ps[0]] + rest)[1..] == rest;
      [ps[0]] + rest
  }

  /** Reading a key after an assignment. */
  lemma AssignLookup(ps: seq<Prop>, key: string, v: Value, k: string)
    ensures Lookup(Assign(ps, key, v), k) == if k == key then v else Lookup(ps, k)
  {
  }

  /** An existing key keeps its place; a new key goes last. */
  lemma {:induction false} AssignKeys(ps: seq<Prop>, k: string, v: Value)
    ensures k in Keys(ps) ==> Keys(Assign(ps, k, v)) == Keys(ps)
    ensures k !in Keys(ps) ==> Keys(Assign(ps, k, v)) == Keys(ps) + [k]
  {
    if ps != [] && ps[0].0 != k {
      AssignKeys(ps[1..], k, v);
      assert Keys(ps) == [ps[0].0] + Keys(ps[1..]);
      var r := Assign(ps, k, v);
      assert r == [ps[0]] + Assign(ps[1..], k, v);
      assert Keys(r) == [ps[0].0] + Keys(Assign(ps[1..], k, v));
    }
  }

  /** delete obj[k]. */
  function Remove(ps: seq<Prop>, k: string): (r: seq<Prop>)
    ensures Lookup(r, k) == Undefined
    ensures forall k' :: k' != k ==> Lookup(r, k') == Lookup(ps, k')
    ensures forall k' :: k' in Keys(r) <==> k' in Keys(ps) && k' != k
  {
    if ps == [] then []
    else if ps[0].0 == k then
      Remove(ps[1..], k)
    else
      var rest := Remove(ps[1..], k);
      assert ([ps[0]] + rest)[1..] == rest;
      [ps[0]] + rest
  }

  /** Assigning a property keeps the keys distinct. */
  lemma {:induction false} AssignDistinct(ps: seq<Prop>, k: string, v: Value)
    requires DistinctKeys(ps)
    ensures DistinctKeys(Assign(ps, k, v))
  {
    if ps != [] {
      DistinctCons(ps[0], ps[1..]);
      assert [ps[0]] + ps[1..] == ps;
      if ps[0].0 == k {
        DistinctCons((k, v), ps[1..]);
      } else {
        AssignDistinct(ps[1..], k, v);
        DistinctCons(ps[0], Assign(ps[1..], k, v));
      }
    }
  }

  /** Deleting a property keeps the keys distinct. */
  lemma {:induction false} RemoveDistinct(ps: seq<Prop>, k: string)
    requires DistinctKeys(ps)
    ensures DistinctKeys(Remove(ps, k))
  {
    if ps != [] {
      DistinctCons(ps[0], ps[1..]);
      assert [ps[0]] + ps[1..] == ps;
      RemoveDistinct(ps[1..], k);
      if ps[0].0 != k {
        DistinctCons(ps[0], Remove(ps[1..], k));
      }
    }
  }

  lemma DistinctCons(p: Prop, rest: seq<Prop>)
    ensures DistinctKeys([p] + rest) <==> p.0 !in Keys(rest) && DistinctKeys(rest)
  {
    var ps := [p] + rest;
    assert ps[1..] == rest;
    if p.0 !in Keys(rest) && DistinctKeys(rest) {
      forall i, j | 0 <= i < j < |ps| ensures ps[i].0 != ps[j].0 {
        if i == 0 { assert ps[j].0 == Keys(rest)[j - 1]; } else { assert ps[i] == rest[i - 1] && ps[j] == rest[j - 1]; }
      }
    }
    if DistinctKeys(ps) {
      forall i, j | 0 <= i < j < |rest| ensures rest[i].0 != rest[j].0 {
        assert rest[i] == ps[i + 1] && rest[j] == ps[j + 1];
      }
      forall j | 0 <= j < |rest| ensures Keys(rest)[j] != p.0 {
        assert rest[j] == ps[j + 1] && ps[0].0 != ps[j + 1].0;
      }
    }
  }

  lemma {:induction false} LookupAt(ps: seq<Prop>, i: nat)
    requires DistinctKeys(ps) && i < |ps|
    ensures Lookup(ps, ps[i].0) == ps[i].1
  {
    if i > 0 {
      assert ps[0].0 != ps[i].0;
      assert ps[1..][i - 1] == ps[i];
      LookupAt(ps[1..], i - 1);
    }
  }

  /** The own enumerable properties of a value, in the order Object.keys and
      for...in visit them: the properties of an object, the indices of an
      array or a string with their elements, nothing for other values. */
  function OwnEntries(v: Value): seq<Prop> {
    match v
    case Obj(ps, _) => ps
    case Arr(es) => seq(|es|, i requires 0 <= i < |es| => (NatToDecimal(i), es[i]))
    case Str(s) => seq(|s|, i requires 0 <= i < |s| => (NatToDecimal(i), Str([s[i]])))
    case _ => []
  }

  /** A property read `v[k]` of an own enumerable property; any other key
      reads as undefined. */
  function Member(v: Value, k: string): Value {
    Lookup(OwnEntries(v), k)
  }

  // ---------------------------------------------------------------------------
  // Objects that the pipeline updates in place.

  /** A JavaScript object whose properties are assigned and deleted in place. */
  class JsObject {
    var props: seq<Prop>
    const cls: string

    constructor (ps: seq<Prop>, cls: string)
      ensures props == ps && this.cls == cls
    {
      props := ps;
      this.cls := cls;
    }

    function Get(k: string): Value
      reads this
    {
      Lookup(props, k)
    }

    /** The object as a value, for handing to code that only reads it. */
    function Snapshot(): (v: Value)
      reads this
      ensures v.Obj? && v.props == props
    {
      Obj(props, cls)
    }

    method Set(k: string, v: Value)
      modifies this
      ensures props == Assign(old(props), k, v)
    {
      props := Assign(props, k, v);
    }

    method Delete(k: string)
      modifies this
      ensures props == Remove(old(props), k)
    {
      props := Remove(props, k);
    }
  }

  // ---------------------------------------------------------------------------
  // Behaviour the pipeline calls but does not define.

  /** The host environment, as uninterpreted functions:
      - stringify: JSON.stringify of a value it turns into text;
      - parse: JSON.parse, None when it throws;
      - isoString: the value's toISOString method (Date.prototype.toISOString for dates);
      - display: String(v) for every value that is not a string;
      - deepMerge: the deepMerge helper, as the properties of the fresh object it returns;
      - xhr: the transport, from the final config to a response or an error. */
  datatype Host = Host(
    stringify: Value -> string,
    parse: string -> Option<Value>,
    isoString: Value -> string,
    display: Value -> string,
    deepMerge: seq<Value> -> seq<Prop>,
    xhr: Value -> Outcome)

  /** The decimal digits of a natural number, as Number.prototype.toString writes them. */
  function NatToDecimal(n: nat): (s: string)
    ensures |s| >= 1
    ensures forall i :: 0 <= i < |s| ==> '0' <= s[i] <= '9'
  {
    var d := ["0123456789"[n % 10]];
    if n < 10 then d else NatToDecimal(n / 10) + d
  }

  function IntToDecimal(n: int): string {
    if n < 0 then "-" + NatToDecimal(-n) else NatToDecimal(n)
  }

  /** String(v): a string is its own text; every other value's text is the host's. */
  function JsString(h: Host, v: Value): (s: string)
    ensures v.Str? ==> s == v.s
  {
    if v.Str? then v.s else h.display(v)
  }

}

/** Request and response header helpers (src/helpers/headers.ts): canonical
    spelling of a header name, the default JSON content type, parsing the raw
    response header block, and flattening the per-method header groups. */
module Headers {
  import opened JsValues
  import opened JsStrings
  import Util

  const ContentType := "Content-Type"
  const JsonContentType := "application/json;charset=utf-8"

  // ---------------------------------------------------------------------------
  // normalizeHeaderName

  /** name spells n with different letter case (and is not n itself). */
  predicate IsVariant(name: string, n: string) {
    name != n && ToUpperCase(name) == ToUpperCase(n)
  }

  /** One turn of normalizeHeaderName's loop: a variant spelling of n hands its
      value to n and is deleted. */
  function NormalizeStep(ps: seq<Prop>, name: string, n: string): seq<Prop> {
    if IsVariant(name, n) then Remove(Assign(ps, n, Lookup(ps, name)), name) else ps
  }

  /** The headers once the loop has visited `names`, in order. */
  function NormalizeFold(ps: seq<Prop>, names: seq<string>, n: string): seq<Prop> {
    if names == [] then ps
    else
      var m := |names| - 1;
      NormalizeStep(NormalizeFold(ps, names[..m], n), names[m], n)
  }

  /** The headers after normalizeHeaderName(headers, n): the loop runs over the
      keys the object had when it started. */
  function Normalized(ps: seq<Prop>, n: string): seq<Prop> {
    NormalizeFold(ps, Keys(ps), n)
  }

  /** normalizeHeaderName: missing headers are left alone; otherwise every key
      spelling n in another letter case is renamed to n. */
  method NormalizeHeaderName(headers: JsObject?, n: string)
    modifies headers
    ensures headers != null ==> headers.props == Normalized(old(headers.props), n)
  {
    if headers == null {
      return;
    }
    ghost var ps := headers.props;
    var names := Keys(headers.props);
    var i := 0;
    assert names[..0] == [];
    while i < |names|
      invariant 0 <= i <= |names|
      invariant headers.props == NormalizeFold(ps, names[..i], n)
    {
      var name := names[i];
      assert names[..i + 1][..i] == names[..i];
      if name != n && ToUpperCase(name) == ToUpperCase(n) {
        headers.Set(n, headers.Get(name));
        headers.Delete(name);
      }
      i := i + 1;
    }
    assert names[..i] == names;
  }

  lemma {:induction false} NormalizeFoldDistinct(ps: seq<Prop>, names: seq<string>, n: string)
    requires DistinctKeys(ps)
    ensures DistinctKeys(NormalizeFold(ps, names, n))
  {
    if names != [] {
      var m := |names| - 1;
      var r0 := NormalizeFold(ps, names[..m], n);
      NormalizeFoldDistinct(ps, names[..m], n);
      if IsVariant(names[m], n) {
        AssignDistinct(r0, n, Lookup(r0, names[m]));
        RemoveDistinct(Assign(r0, n, Lookup(r0, names[m])), names[m]);
      }
    }
  }

  /** The loop adds no key other than n. */
  lemma {:induction false} NormalizeFoldKeys(ps: seq<Prop>, names: seq<string>, n: string)
    ensures forall k :: k in Keys(NormalizeFold(ps, names, n)) ==> k in Keys(ps) || k == n
  {
    if names != [] {
      NormalizeFoldKeys(ps, names[..|names| - 1], n);
    }
  }

  /** A visited variant of n is gone for good. */
  lemma {:induction false} NormalizeFoldRemoves(ps: seq<Prop>, names: seq<string>, n: string)
    ensures forall k :: k in names && IsVariant(k, n) ==> k !in Keys(NormalizeFold(ps, names, n))
  {
    if names != [] {
      var m := |names| - 1;
      NormalizeFoldRemoves(ps, names[..m], n);
      assert names == names[..m] + [names[m]];
    }
  }

  /** Once a variant of n has been visited, n is present. */
  lemma {:induction false} NormalizeFoldAddsName(ps: seq<Prop>, names: seq<string>, n: string)
    ensures (exists j :: 0 <= j < |names| && IsVariant(names[j], n)) ==> n in Keys(NormalizeFold(ps, names, n))
  {
    if names != [] {
      var m := |names| - 1;
      NormalizeFoldAddsName(ps, names[..m], n);
      if !IsVariant(names[m], n) && exists j :: 0 <= j < |names| && IsVariant(names[j], n) {
        var j :| 0 <= j < |names| && IsVariant(names[j], n);
        assert names[..m][j] == names[j];
      }
    }
  }

  /** Keys other than n that are not visited variants of n keep their presence and value. */
  lemma {:induction false} NormalizeFoldKeeps(ps: seq<Prop>, names: seq<string>, n: string)
    ensures forall k :: k != n && (k !in names || !IsVariant(k, n))
                        ==> Lookup(NormalizeFold(ps, names, n), k) == Lookup(ps, k)
                            && (k in Keys(NormalizeFold(ps, names, n)) <==> k in Keys(ps))
  {
    if names != [] {
      var m := |names| - 1;
      NormalizeFoldKeeps(ps, names[..m], n);
      assert names == names[..m] + [names[m]];
    }
  }

  /** When no variant of n is visited, n keeps its value. */
  lemma {:induction false} NormalizeFoldNoVariantValue(ps: seq<Prop>, names: seq<string>, n: string)
    requires forall j :: 0 <= j < |names| ==> !IsVariant(names[j], n)
    ensures Lookup(NormalizeFold(ps, names, n), n) == Lookup(ps, n)
  {
    NoVariantUnchanged(ps, names, n);
  }

  /** When no name is visited twice, n ends up with the value the last visited
      variant had at the start. */
  lemma {:induction false} NormalizeFoldValue(ps: seq<Prop>, names: seq<string>, n: string, j: nat)
    requires forall i, i' :: 0 <= i < i' < |names| ==> names[i] != names[i']
    requires j < |names| && IsVariant(names[j], n)
    requires forall j' :: j < j' < |names| ==> !IsVariant(names[j'], n)
    ensures Lookup(NormalizeFold(ps, names, n), n) == Lookup(ps, names[j])
  {
    var m := |names| - 1;
    var init := names[..m];
    var last := names[m];
    var r0 := NormalizeFold(ps, init, n);
    if j == m {
      NormalizeFoldKeeps(ps, init, n);
      assert last !in init by {
        forall i | 0 <= i < m ensures init[i] != last { }
      }
      assert Lookup(r0, last) == Lookup(ps, last);
    } else {
      assert !IsVariant(last, n);
      forall i, i' | 0 <= i < i' < |init| ensures init[i] != init[i'] {
        assert init[i] == names[i] && init[i'] == names[i'];
      }
      forall j' | j < j' < |init| ensures !IsVariant(init[j'], n) {
        assert init[j'] == names[j'];
      }
      assert init[j] == names[j];
      NormalizeFoldValue(ps, init, n, j);
    }
  }

  /** After normalizeHeaderName(headers, n) no key spells n in another letter
      case, and a key that is not a spelling of n keeps its presence and value;
      with no variant at all the headers are unchanged. */
  lemma NormalizedHeaders(ps: seq<Prop>, n: string)
    requires DistinctKeys(ps)
    ensures var r := Normalized(ps, n);
      && DistinctKeys(r)
      && (forall k :: k in Keys(r) ==> !IsVariant(k, n))
      && (forall k :: ToUpperCase(k) != ToUpperCase(n) ==> Lookup(r, k) == Lookup(ps, k) && (k in Keys(r) <==> k in Keys(ps)))
      && ((forall j :: 0 <= j < |ps| ==> !IsVariant(ps[j].0, n)) ==> r == ps)
  {
    var ks := Keys(ps);
    NormalizeFoldDistinct(ps, ks, n);
    NormalizeFoldKeys(ps, ks, n);
    NormalizeFoldRemoves(ps, ks, n);
    NormalizeFoldKeeps(ps, ks, n);
    if forall j :: 0 <= j < |ps| ==> !IsVariant(ps[j].0, n) {
      NoVariantUnchanged(ps, ks, n);
    }
  }

  /** When some key is a variant of the name, the normalised object has the
      name, holding the value of the last such variant. */
  lemma NormalizedName(ps: seq<Prop>, n: string)
    requires DistinctKeys(ps)
    ensures var r := Normalized(ps, n);
      && (forall j :: 0 <= j < |ps| && IsVariant(ps[j].0, n) ==> n in Keys(r))
      && (forall j :: 0 <= j < |ps| && IsVariant(ps[j].0, n) && (forall j' :: j < j' < |ps| ==> !IsVariant(ps[j'].0, n))
                     ==> Lookup(r, n) == ps[j].1)
  {
    var ks := Keys(ps);
    var r := Normalized(ps, n);
    NormalizeFoldAddsName(ps, ks, n);
    forall j | 0 <= j < |ps| && IsVariant(ps[j].0, n) ensures n in Keys(r) {
      assert IsVariant(ks[j], n);
    }
    forall j | 0 <= j < |ps| && IsVariant(ps[j].0, n) && (forall j' :: j < j' < |ps| ==> !IsVariant(ps[j'].0, n))
      ensures Lookup(r, n) == ps[j].1
    {
      forall i, i' | 0 <= i < i' < |ks| ensures ks[i] != ks[i'] { }
      NormalizeFoldValue(ps, ks, n, j);
      LookupAt(ps, j);
    }
  }


  /** Visiting only keys that are not variants of n changes nothing. */
  lemma {:induction false} NoVariantUnchanged(ps: seq<Prop>, names: seq<string>, n: string)
    requires forall j :: 0 <= j < |names| ==> !IsVariant(names[j], n)
    ensures NormalizeFold(ps, names, n) == ps
  {
    if names != [] {
      NoVariantUnchanged(ps, names[..|names| - 1], n);
    }
  }

  // ---------------------------------------------------------------------------
  // processHeaders

  /** The headers after processHeaders(headers, data). */
  function ProcessedHeaders(ps: seq<Prop>, data: Value): seq<Prop> {
    var q := Normalized(ps, ContentType);
    if Util.IsPlainObject(data) && !Truthy(Lookup(q, ContentType)) then Assign(q, ContentType, Str(JsonContentType))
    else q
  }

  /** processHeaders: canonical "Content-Type", then the JSON content type for a
      plain-object body when none is set; returns the same headers object. */
  method ProcessHeaders(headers: JsObject?, data: Value) returns (r: JsObject?)
    modifies headers
    ensures r == headers
    ensures headers != null ==> headers.props == ProcessedHeaders(old(headers.props), data)
  {
    NormalizeHeaderName(headers, ContentType);
    if Util.IsPlainObject(data) {
      if headers != null && !Truthy(headers.Get(ContentType)) {
        headers.Set(ContentType, Str(JsonContentType));
      }
    }
    r := headers;
  }

  /** processHeaders never overwrites a truthy Content-Type, adds the JSON one
      for a plain-object body that has none, does nothing else for other
      bodies, and touches no key other than the spellings of Content-Type. */
  lemma ProcessedContentType(ps: seq<Prop>, data: Value)
    requires DistinctKeys(ps)
    ensures var q, r := Normalized(ps, ContentType), ProcessedHeaders(ps, data);
      && DistinctKeys(r)
      && (Truthy(Lookup(q, ContentType)) ==> Lookup(r, ContentType) == Lookup(q, ContentType))
      && (Util.IsPlainObject(data) && !Truthy(Lookup(q, ContentType)) ==> Lookup(r, ContentType) == Str(JsonContentType))
      && (Util.IsPlainObject(data) ==> Truthy(Lookup(r, ContentType)))
      && (!Util.IsPlainObject(data) ==> r == q)
      && (forall k :: k in Keys(r) ==> !IsVariant(k, ContentType))
      && (forall k :: ToUpperCase(k) != ToUpperCase(ContentType) ==> Lookup(r, k) == Lookup(ps, k))
  {
    NormalizedHeaders(ps, ContentType);
    var q := Normalized(ps, ContentType);
    AssignDistinct(q, ContentType, Str(JsonContentType));
  }

  // ---------------------------------------------------------------------------
  // parseHeaders

  const CRLF := "\r\n"

  /** One line of the raw header block: the key before the first ":", trimmed
      and lower-cased, and the rest rejoined with ":" and trimmed; None when the
      key is empty. */
  function ParseLine(line: string): Option<(string, string)> {
    var segs := Split(line, ":");
    var key := ToLowerCase(Trim(segs[0]));
    if key == [] then None else Some((key, Trim(Join(segs[1..], ":"))))
  }

  /** Each line of the block, parsed. */
  function Entries(lines: seq<string>): (es: seq<Option<(string, string)>>)
    ensures |es| == |lines| && forall i :: 0 <= i < |lines| ==> es[i] == ParseLine(lines[i])
  {
    seq(|lines|, i requires 0 <= i < |lines| => ParseLine(lines[i]))
  }

  /** The parsed map after the entries, in order; a later entry overwrites an earlier one. */
  function Collect(es: seq<Option<(string, string)>>): seq<Prop> {
    if es == [] then []
    else
      var m := |es| - 1;
      CollectStep(Collect(es[..m]), es[m])
  }

  /** One turn of parseHeaders' loop: a parsed line is assigned, a skipped one changes nothing. */
  function CollectStep(ps: seq<Prop>, e: Option<(string, string)>): seq<Prop> {
    if e.Some? then Assign(ps, e.value.0, Str(e.value.1)) else ps
  }

  /** What parseHeaders returns for a raw header block (None for null). */
  function ParsedHeaders(raw: Option<string>): seq<Prop> {
    if raw.None? || raw.value == [] then [] else Collect(Entries(Split(raw.value, CRLF)))
  }

  /** parseHeaders: a fresh object holding the parsed headers. */
  method ParseHeaders(raw: Option<string>) returns (parsed: Value)
    ensures parsed == Obj(ParsedHeaders(raw), "Object")
    ensures raw.None? || raw == Some("") ==> parsed == Obj([], "Object")
  {
    var ps: seq<Prop> := [];
    if raw.None? || raw.value == [] {
      return Obj(ps, "Object");
    }
    var lines := Split(raw.value, CRLF);
    var i := 0;
    assert lines[..0] == [];
    while i < |lines|
      invariant 0 <= i <= |lines|
      invariant ps == Collect(Entries(lines[..i]))
    {
      assert Entries(lines[..i + 1])[..i] == Entries(lines[..i]);
      var segs := Split(lines[i], ":");
      var key := ToLowerCase(Trim(segs[0]));
      if key != [] {
        var val := Trim(Join(segs[1..], ":"));
        ps := Assign(ps, key, Str(val));
      }
      i := i + 1;
    }
    assert lines[..i] == lines;
    parsed := Obj(ps, "Object");
  }

  /** A line splits at its first ":": the key is the text before it and the
      value is all the text after it, colons included ("a: b:c" gives "b:c");
      a line without ":" is all key and has the empty value. */
  lemma ParseLineFirstColon(line: string)
    ensures var i := IndexOf(line, ":");
            var key := ToLowerCase(Trim(if i == -1 then line else line[..i]));
            var val := Trim(if i == -1 then "" else line[i + 1..]);
            ParseLine(line) == if key == [] then None else Some((key, val))
  {
    var i := IndexOf(line, ":");
    var segs := Split(line, ":");
    if i != -1 {
      var rest := line[i + 1..];
      assert segs == [line[..i]] + Split(rest, ":");
      assert segs[1..] == Split(rest, ":");
      JoinSplit(rest, ":");
    } else {
      assert segs == [line];
      assert segs[1..] == [];
    }
  }

  /** A parsed key: not empty, no upper-case letter, no surrounding white space. */
  predicate CleanKey(k: string) {
    k != [] && !IsSpace(k[0]) && !IsSpace(k[|k| - 1]) && forall i :: 0 <= i < |k| ==> !('A' <= k[i] <= 'Z')
  }

  /** A trimmed, lower-cased, non-empty text is a clean key. */
  lemma LowerTrimClean(s: string)
    requires ToLowerCase(Trim(s)) != []
    ensures CleanKey(ToLowerCase(Trim(s)))
  {
    LowerClean(Trim(s));
  }

  /** Lower-casing a text with no space at either end gives a clean key. */
  lemma LowerClean(t: string)
    requires t != [] && !IsSpace(t[0]) && !IsSpace(t[|t| - 1])
    ensures CleanKey(ToLowerCase(t))
  {
    var k := ToLowerCase(t);
    LowerNotSpace(t[0]);
    LowerNotSpace(t[|t| - 1]);
    assert k[0] == Lower(t[0]) && k[|k| - 1] == Lower(t[|t| - 1]);
  }

  /** Lower-casing never turns a character into a space. */
  lemma LowerNotSpace(c: char)
    requires !IsSpace(c)
    ensures !IsSpace(Lower(c))
  {
  }

  /** Every key a line parses to is clean. */
  lemma ParseLineKey(line: string)
    requires ParseLine(line).Some?
    ensures CleanKey(ParseLine(line).value.0)
  {
    LowerTrimClean(Split(line, ":")[0]);
  }

  /** Entry j names key k. */
  predicate HasKey(es: seq<Option<(string, string)>>, j: int, k: string)
    requires 0 <= j < |es|
  {
    es[j].Some? && es[j].value.0 == k
  }

  /** The parsed object never holds a key twice. */
  lemma {:induction false} CollectDistinct(es: seq<Option<(string, string)>>)
    ensures DistinctKeys(Collect(es))
  {
    if es != [] {
      var m := |es| - 1;
      CollectDistinct(es[..m]);
      if es[m].Some? {
        AssignDistinct(Collect(es[..m]), es[m].value.0, Str(es[m].value.1));
      }
    }
  }

  /** Every collected key is one the entries name with a clean key, and holds a string. */
  lemma {:induction false} CollectClean(es: seq<Option<(string, string)>>)
    requires forall j :: 0 <= j < |es| && es[j].Some? ==> CleanKey(es[j].value.0)
    ensures forall k :: k in Keys(Collect(es)) ==> CleanKey(k) && Lookup(Collect(es), k).Str?
  {
    if es != [] {
      var m := |es| - 1;
      assert forall j :: 0 <= j < m ==> es[..m][j] == es[j];
      CollectClean(es[..m]);
    }
  }

  /** A key that no entry names is absent. */
  lemma {:induction false} CollectAbsent(es: seq<Option<(string, string)>>, k: string)
    requires forall j :: 0 <= j < |es| ==> !HasKey(es, j, k)
    ensures k !in Keys(Collect(es))
  {
    if es != [] {
      var m := |es| - 1;
      forall j | 0 <= j < m ensures !HasKey(es[..m], j, k) {
        assert es[..m][j] == es[j] && !HasKey(es, j, k);
      }
      CollectAbsent(es[..m], k);
      assert !HasKey(es, m, k);
    }
  }

  /** A key holds the value of the last entry that names it. */
  lemma {:induction false} CollectLastWins(es: seq<Option<(string, string)>>, j: nat)
    requires j < |es| && es[j].Some?
    requires forall j' :: j < j' < |es| ==> !HasKey(es, j', es[j].value.0)
    ensures Lookup(Collect(es), es[j].value.0) == Str(es[j].value.1)
  {
    var m := |es| - 1;
    var k := es[j].value.0;
    var ps0 := Collect(es[..m]);
    assert Collect(es) == CollectStep(ps0, es[m]);
    if j < m {
      var init := es[..m];
      assert init[j] == es[j];
      forall j' | j < j' < m ensures !HasKey(init, j', k) {
        assert init[j'] == es[j'] && !HasKey(es, j', k);
      }
      CollectLastWins(init, j);
      assert !HasKey(es, m, k);
      StepKeeps(ps0, es[m], k);
    }
  }

  /** A step for another key, or a skipped line, leaves key k as it was. */
  lemma StepKeeps(ps: seq<Prop>, e: Option<(string, string)>, k: string)
    requires e.None? || e.value.0 != k
    ensures Lookup(CollectStep(ps, e), k) == Lookup(ps, k)
  {
  }

  lemma EntriesClean(lines: seq<string>)
    ensures forall j :: 0 <= j < |lines| && Entries(lines)[j].Some? ==> CleanKey(Entries(lines)[j].value.0)
  {
    forall j | 0 <= j < |lines| && Entries(lines)[j].Some? ensures CleanKey(Entries(lines)[j].value.0) {
      ParseLineKey(lines[j]);
    }
  }

  /** The object parseHeaders returns for a non-empty block: its keys are
      distinct and clean, and each holds a string (CollectAbsent and
      CollectLastWins say which keys and which strings). */
  lemma ParsedHeadersFacts(raw: string)
    requires raw != []
    ensures DistinctKeys(ParsedHeaders(Some(raw)))
    ensures forall k :: k in Keys(ParsedHeaders(Some(raw))) ==> CleanKey(k) && Lookup(ParsedHeaders(Some(raw)), k).Str?
  {
    var lines := Split(raw, CRLF);
    var es := Entries(lines);
    assert ParsedHeaders(Some(raw)) == Collect(es);
    CollectDistinct(es);
    EntriesClean(lines);
    CollectClean(es);
  }

  // ---------------------------------------------------------------------------
  // flattenHeaders

  /** The per-method header groups and the shared group, deleted after merging. */
  const MethodGroups: seq<string> := ["delete", "get", "head", "options", "post", "put", "patch", "common"]

  /** The properties once each of `groups` is deleted in turn. */
  function Ungrouped(ps: seq<Prop>, groups: seq<string>): seq<Prop>
    decreases |groups|
  {
    if groups == [] then ps else Ungrouped(Remove(ps, groups[0]), groups[1..])
  }

  /** The merge flattenHeaders asks the host's deepMerge for: the shared group,
      then the group of the request's method, then the headers themselves. */
  function MergedGroups(h: Host, headers: Value, httpMethod: string): seq<Prop> {
    h.deepMerge([Member(headers, "common"), Member(headers, httpMethod), headers])
  }

  /** flattenHeaders: falsy headers come back as they are; otherwise the groups
      are merged into a fresh object, from which every group key is deleted. */
  method FlattenHeaders(h: Host, headers: Value, httpMethod: string) returns (r: Value)
    ensures !Truthy(headers) ==> r == headers
    ensures Truthy(headers) ==> r == Obj(Ungrouped(MergedGroups(h, headers, httpMethod), MethodGroups), "Object")
  {
    if !Truthy(headers) {
      return headers;
    }
    var merged := new JsObject(MergedGroups(h, headers, httpMethod), "Object");
    ghost var start := merged.props;
    var i := 0;
    while i < |MethodGroups|
      invariant 0 <= i <= |MethodGroups|
      invariant Ungrouped(merged.props, MethodGroups[i..]) == Ungrouped(start, MethodGroups)
    {
      assert MethodGroups[i..][1..] == MethodGroups[i + 1..];
      merged.Delete(MethodGroups[i]);
      i := i + 1;
    }
    r := merged.Snapshot();
  }

  /** Deleting the groups removes exactly those keys: none of them is left, and
      every other key keeps its presence and value. */
  lemma {:induction false} UngroupedFacts(ps: seq<Prop>, groups: seq<string>)
    ensures forall g :: g in groups ==> g !in Keys(Ungrouped(ps, groups))
    ensures forall k :: k !in groups ==> Lookup(Ungrouped(ps, groups), k) == Lookup(ps, k)
                                         && (k in Keys(Ungrouped(ps, groups)) <==> k in Keys(ps))
    decreases |groups|
  {
    if groups != [] {
      UngroupedFacts(Remove(ps, groups[0]), groups[1..]);
      assert groups == [groups[0]] + groups[1..];
    }
  }

  /** The flattened headers hold none of the group keys. */
  lemma FlattenedHasNoGroups(h: Host, headers: Value, httpMethod: string)
    ensures forall g :: g in MethodGroups ==> g !in Keys(Ungrouped(MergedGroups(h, headers, httpMethod), MethodGroups))
  {
    UngroupedFacts(MergedGroups(h, headers, httpMethod), MethodGroups);
  }
}

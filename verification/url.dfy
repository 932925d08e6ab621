/** Query-string serialisation (src/helpers/url.ts): the relaxed percent-encoding
    `encode` and `buildURL`. */
module Url {
  import opened JsValues
  import opened JsStrings
  import Util

  type Byte = x: int | 0 <= x < 256

  // ---------------------------------------------------------------------------
  // encodeURIComponent

  /** One unit of encodeURIComponent's output: a character left as it is, or one
      UTF-8 byte written as "%" and two upper-case hexadecimal digits
      (percent-encoding, section 2.1 of RFC 3986). */
  datatype Token = Lit(c: char) | Esc(b: Byte)

  /** The characters encodeURIComponent leaves unescaped: the unreserved
      characters of section 2.3 of RFC 3986 and ! * ' ( ). */
  predicate Unescaped(c: char) {
    'A' <= c <= 'Z' || 'a' <= c <= 'z' || '0' <= c <= '9' || c in "-_.!~*'()"
  }

  /** The UTF-8 encoding of one Unicode scalar value. */
  function Utf8(c: char): (bs: seq<Byte>)
    ensures 1 <= |bs| <= 4
    ensures c as int < 0x80 ==> bs == [c as int]
  {
    var n := c as int;
    if n < 0x80 then [n]
    else if n < 0x800 then [0xC0 + n / 0x40, 0x80 + n % 0x40]
    else if n < 0x10000 then [0xE0 + n / 0x1000, 0x80 + n / 0x40 % 0x40, 0x80 + n % 0x40]
    else [0xF0 + n / 0x40000, 0x80 + n / 0x1000 % 0x40, 0x80 + n / 0x40 % 0x40, 0x80 + n % 0x40]
  }

  function CharTokens(c: char): seq<Token> {
    if Unescaped(c) then [Lit(c)] else seq(|Utf8(c)|, i requires 0 <= i < |Utf8(c)| => Esc(Utf8(c)[i]))
  }

  function UriTokens(s: string): seq<Token> {
    if s == [] then [] else CharTokens(s[0]) + UriTokens(s[1..])
  }

  /** An upper-case hexadecimal digit. */
  function HexDigit(x: nat): (d: char)
    requires x < 16
    ensures '0' <= d <= '9' || 'A' <= d <= 'F'
  {
    if x < 10 then ('0' as int + x) as char else ('A' as int + x - 10) as char
  }

  function TokenText(t: Token): string {
    match t
    case Lit(c) => [c]
    case Esc(b) => ['%', HexDigit(b / 16), HexDigit(b % 16)]
  }

  function Render(ts: seq<Token>): string {
    if ts == [] then [] else TokenText(ts[0]) + Render(ts[1..])
  }

  /** encodeURIComponent on a string of Unicode scalar values. */
  function EncodeURIComponent(s: string): string {
    Render(UriTokens(s))
  }

  // ---------------------------------------------------------------------------
  // The replace chain

  predicate SameChar(a: char, b: char, ignoreCase: bool) {
    if ignoreCase then Lower(a) == Lower(b) else a == b
  }

  /** s starts with pat, letters compared without case when ignoreCase holds. */
  predicate StartsWith(s: string, pat: string, ignoreCase: bool) {
    |pat| <= |s| && forall i :: 0 <= i < |pat| ==> SameChar(s[i], pat[i], ignoreCase)
  }

  /** String.prototype.replace with a global regular expression for the literal
      pat (flag i when ignoreCase): matches are replaced left to right and do not overlap. */
  function ReplaceAll(s: string, pat: string, rep: string, ignoreCase: bool): string
    requires |pat| > 0
    decreases |s|
  {
    if s == [] then []
    else if StartsWith(s, pat, ignoreCase) then rep + ReplaceAll(s[|pat|..], pat, rep, ignoreCase)
    else [s[0]] + ReplaceAll(s[1..], pat, rep, ignoreCase)
  }

  /** One `.replace(/pat/g, rep)` call, with flag i when ignoreCase holds. */
  datatype Replacement = Replacement(pat: string, rep: string, ignoreCase: bool)

  /** The replace calls encode makes after encodeURIComponent, in order. */
  const Replacements: seq<Replacement> := [
    Replacement("%40", "@", false),
    Replacement("%3A", ":", true),
    Replacement("%24", "$", false),
    Replacement("%2C", ",", true),
    Replacement("%20", "+", false),
    Replacement("%5B", "[", true),
    Replacement("%5D", "]", true)
  ]

  predicate NonEmptyPatterns(rs: seq<Replacement>) {
    forall i :: 0 <= i < |rs| ==> |rs[i].pat| > 0
  }

  /** The result of a chain of replace calls, applied left to right. */
  function ReplaceChain(s: string, rs: seq<Replacement>): string
    requires NonEmptyPatterns(rs)
    decreases |rs|
  {
    if rs == [] then s
    else ReplaceChain(ReplaceAll(s, rs[0].pat, rs[0].rep, rs[0].ignoreCase), rs[1..])
  }

  /** encode: encodeURIComponent, then @ : $ , space [ ] put back. */
  function Encode(s: string): string {
    ReplaceChain(EncodeURIComponent(s), Replacements)
  }

  // ---------------------------------------------------------------------------
  // The same encoding, byte by byte

  /** The character encode writes for an escaped byte it puts back. */
  function Restored(b: Byte): Option<char> {
    if b == 0x40 then Some('@')
    else if b == 0x3A then Some(':')
    else if b == 0x24 then Some('$')
    else if b == 0x2C then Some(',')
    else if b == 0x20 then Some('+')
    else if b == 0x5B then Some('[')
    else if b == 0x5D then Some(']')
    else None
  }

  function Relax(t: Token): Token {
    if t.Esc? && Restored(t.b).Some? then Lit(Restored(t.b).value) else t
  }

  function RelaxAll(ts: seq<Token>): (r: seq<Token>)
    ensures |r| == |ts| && forall i :: 0 <= i < |ts| ==> r[i] == Relax(ts[i])
  {
    seq(|ts|, i requires 0 <= i < |ts| => Relax(ts[i]))
  }

  /** The relaxed encoding defined per byte: escape as encodeURIComponent does,
      except that the bytes of @ : $ , [ ] come out as those characters and a
      space as +. */
  function RelaxedEncoding(s: string): string {
    Render(RelaxAll(UriTokens(s)))
  }

  // ---------------------------------------------------------------------------
  // Proof that the replace chain is the byte-by-byte encoding

  predicate NoLiteralPercent(ts: seq<Token>) {
    forall i :: 0 <= i < |ts| ==> ts[i] != Lit('%')
  }

  function Subst(ts: seq<Token>, b: Byte, c: char): (r: seq<Token>)
    ensures |r| == |ts|
    ensures forall i :: 0 <= i < |ts| ==> r[i] == SubstToken(ts[i], b, c)
  {
    seq(|ts|, i requires 0 <= i < |ts| => SubstToken(ts[i], b, c))
  }

  lemma HexDigitLowerInjective(x: nat, y: nat)
    requires x < 16 && y < 16
    ensures Lower(HexDigit(x)) == Lower(HexDigit(y)) ==> x == y
    ensures Lower(HexDigit(x)) != '%'
  {
  }

  lemma RenderCons(t: Token, ts: seq<Token>)
    ensures Render([t] + ts) == TokenText(t) + Render(ts)
  {
    assert ([t] + ts)[1..] == ts;
  }

  lemma {:induction false} RenderAppend(a: seq<Token>, b: seq<Token>)
    ensures Render(a + b) == Render(a) + Render(b)
  {
    if a == [] {
      assert a + b == b;
    } else {
      assert (a + b)[0] == a[0] && (a + b)[1..] == a[1..] + b;
      calc {
        Render(a + b);
        TokenText(a[0]) + Render(a[1..] + b);
        { RenderAppend(a[1..], b); }
        TokenText(a[0]) + (Render(a[1..]) + Render(b));
        Render(a) + Render(b);
      }
    }
  }

  /** Replacing matches of an escape in the text of one token followed by more
      text handles that token on its own: its text becomes the character when it
      is the escape and stays as it is otherwise. */
  lemma ReplaceToken(t: Token, rest: string, b: Byte, c: char, ignoreCase: bool)
    requires t != Lit('%')
    ensures ReplaceAll(TokenText(t) + rest, TokenText(Esc(b)), [c], ignoreCase)
            == TokenText(if t == Esc(b) then Lit(c) else t) + ReplaceAll(rest, TokenText(Esc(b)), [c], ignoreCase)
  {
    var pat, s := TokenText(Esc(b)), TokenText(t) + rest;
    match t
    case Lit(d) =>
      assert !SameChar(s[0], pat[0], ignoreCase);
      assert s[1..] == rest;
    case Esc(b') =>
      if b' == b {
        assert StartsWith(s, pat, ignoreCase);
        assert s[3..] == rest;
      } else {
        EscMismatch(b', rest, b, c, ignoreCase);
      }
  }

  lemma EscMismatch(b': Byte, rest: string, b: Byte, c: char, ignoreCase: bool)
    requires b' != b
    ensures ReplaceAll(TokenText(Esc(b')) + rest, TokenText(Esc(b)), [c], ignoreCase)
            == TokenText(Esc(b')) + ReplaceAll(rest, TokenText(Esc(b)), [c], ignoreCase)
  {
    var pat, s := TokenText(Esc(b)), TokenText(Esc(b')) + rest;
    HexDigitLowerInjective(b / 16, b' / 16);
    HexDigitLowerInjective(b % 16, b' % 16);
    assert !SameChar(s[1], pat[1], ignoreCase) || !SameChar(s[2], pat[2], ignoreCase);
    assert !StartsWith(s, pat, ignoreCase);
    var s1, s2 := s[1..], s[2..];
    assert s1[1..] == s2 && s2[1..] == rest;
    assert !StartsWith(s1, pat, ignoreCase) by { assert !SameChar(s1[0], '%', ignoreCase); }
    assert !StartsWith(s2, pat, ignoreCase) by { assert !SameChar(s2[0], '%', ignoreCase); }
    calc {
      ReplaceAll(s, pat, [c], ignoreCase);
      [s[0]] + ReplaceAll(s1, pat, [c], ignoreCase);
      [s[0]] + ([s1[0]] + ReplaceAll(s2, pat, [c], ignoreCase));
      [s[0]] + ([s1[0]] + ([s2[0]] + ReplaceAll(rest, pat, [c], ignoreCase)));
      TokenText(Esc(b')) + ReplaceAll(rest, pat, [c], ignoreCase);
    }
  }

  /** Replacing every match of one escape by a character, over a string made of
      tokens, is substituting that character for the escape's tokens. */
  lemma {:induction false} ReplaceEscape(ts: seq<Token>, b: Byte, c: char, ignoreCase: bool)
    requires NoLiteralPercent(ts)
    ensures ReplaceAll(Render(ts), TokenText(Esc(b)), [c], ignoreCase) == Render(Subst(ts, b, c))
  {
    if ts != [] {
      assert NoLiteralPercent(ts[1..]) by {
        forall i | 0 <= i < |ts| - 1 ensures ts[1..][i] != Lit('%') { assert ts[1..][i] == ts[i + 1]; }
      }
      ReplaceEscape(ts[1..], b, c, ignoreCase);
      ReplaceToken(ts[0], Render(ts[1..]), b, c, ignoreCase);
      var sub := Subst(ts, b, c);
      assert sub == [sub[0]] + Subst(ts[1..], b, c);
      RenderCons(sub[0], Subst(ts[1..], b, c));
    }
  }

  lemma {:induction false} UriTokensNoLiteralPercent(s: string)
    ensures NoLiteralPercent(UriTokens(s))
  {
    if s != [] {
      UriTokensNoLiteralPercent(s[1..]);
      var a, b := CharTokens(s[0]), UriTokens(s[1..]);
      forall i | 0 <= i < |a + b| ensures (a + b)[i] != Lit('%') {
        if i >= |a| { assert (a + b)[i] == b[i - |a|]; }
      }
    }
  }

  lemma SubstNoLiteralPercent(ts: seq<Token>, b: Byte, c: char)
    requires NoLiteralPercent(ts) && c != '%'
    ensures NoLiteralPercent(Subst(ts, b, c))
  {
  }

  /** The bytes whose escapes the replacements match, and the characters they
      put back, in the same order. */
  const RestoredBytes: seq<Byte> := [0x40, 0x3A, 0x24, 0x2C, 0x20, 0x5B, 0x5D]
  const RestoredChars: string := "@:$,+[]"

  /** Each replacement's pattern is the escape of the matching byte, and its
      replacement is the matching character, which is not "%". */
  predicate ReplacesEscapes(rs: seq<Replacement>, bs: seq<Byte>, cs: string) {
    |rs| == |bs| == |cs| &&
    forall i :: 0 <= i < |rs| ==> rs[i].pat == TokenText(Esc(bs[i])) && rs[i].rep == [cs[i]] && cs[i] != '%'
  }

  lemma ReplacementsReplaceEscapes()
    ensures ReplacesEscapes(Replacements, RestoredBytes, RestoredChars)
  {
    assert TokenText(Esc(0x40)) == "%40" && TokenText(Esc(0x3A)) == "%3A";
    assert TokenText(Esc(0x24)) == "%24" && TokenText(Esc(0x2C)) == "%2C";
    assert TokenText(Esc(0x20)) == "%20" && TokenText(Esc(0x5B)) == "%5B";
    assert TokenText(Esc(0x5D)) == "%5D";
  }

  /** The substitutions of a chain of escape replacements, applied in order. */
  function SubstChain(ts: seq<Token>, bs: seq<Byte>, cs: string): seq<Token>
    requires |bs| == |cs|
    decreases |bs|
  {
    if bs == [] then ts else SubstChain(Subst(ts, bs[0], cs[0]), bs[1..], cs[1..])
  }

  /** A chain of escape replacements over rendered tokens substitutes on the tokens. */
  lemma {:induction false} ReplaceChainTokens(ts: seq<Token>, rs: seq<Replacement>, bs: seq<Byte>, cs: string)
    requires NoLiteralPercent(ts) && ReplacesEscapes(rs, bs, cs)
    ensures NonEmptyPatterns(rs)
    ensures ReplaceChain(Render(ts), rs) == Render(SubstChain(ts, bs, cs))
    decreases |rs|
  {
    if rs != [] {
      var r := rs[0];
      ReplaceEscape(ts, bs[0], cs[0], r.ignoreCase);
      SubstNoLiteralPercent(ts, bs[0], cs[0]);
      assert ReplacesEscapes(rs[1..], bs[1..], cs[1..]) by {
        forall i | 0 <= i < |rs| - 1
          ensures rs[1..][i] == rs[i + 1] && bs[1..][i] == bs[i + 1] && cs[1..][i] == cs[i + 1] { }
      }
      ReplaceChainTokens(Subst(ts, bs[0], cs[0]), rs[1..], bs[1..], cs[1..]);
    }
  }

  /** The seven substitutions, one after another, relax every token. */
  lemma RestoredSubstChain(t0: seq<Token>)
    ensures SubstChain(t0, RestoredBytes, RestoredChars) == RelaxAll(t0)
  {
    var bs, cs := RestoredBytes, RestoredChars;
    var t1 := Subst(t0, 0x40, '@');
    var t2 := Subst(t1, 0x3A, ':');
    var t3 := Subst(t2, 0x24, '$');
    var t4 := Subst(t3, 0x2C, ',');
    var t5 := Subst(t4, 0x20, '+');
    var t6 := Subst(t5, 0x5B, '[');
    var t7 := Subst(t6, 0x5D, ']');
    calc {
      SubstChain(t0, bs, cs);
      SubstChain(t1, bs[1..], cs[1..]);
      SubstChain(t2, bs[2..], cs[2..]);
      SubstChain(t3, bs[3..], cs[3..]);
      SubstChain(t4, bs[4..], cs[4..]);
      SubstChain(t5, bs[5..], cs[5..]);
      SubstChain(t6, bs[6..], cs[6..]);
      SubstChain(t7, bs[7..], cs[7..]);
      t7;
    }
    forall i | 0 <= i < |t0| ensures t7[i] == RelaxAll(t0)[i] {
      RelaxBySubsts(t0[i]);
    }
  }

  function SubstToken(t: Token, b: Byte, c: char): Token {
    if t == Esc(b) then Lit(c) else t
  }

  /** On one token, the seven substitutions are relaxing it. */
  lemma RelaxBySubsts(t: Token)
    ensures SubstToken(SubstToken(SubstToken(SubstToken(SubstToken(SubstToken(SubstToken(
              t, 0x40, '@'), 0x3A, ':'), 0x24, '$'), 0x2C, ','), 0x20, '+'), 0x5B, '['), 0x5D, ']')
            == Relax(t)
  {
  }

  /** encode, written as a chain of replace calls, is the byte-by-byte relaxed encoding. */
  lemma EncodeIsRelaxedEncoding(s: string)
    ensures Encode(s) == RelaxedEncoding(s)
  {
    var t0 := UriTokens(s);
    UriTokensNoLiteralPercent(s);
    RestoredSubstChain(t0);
    ReplacementsReplaceEscapes();
    ReplaceChainTokens(t0, Replacements, RestoredBytes, RestoredChars);
  }

  // ---------------------------------------------------------------------------
  // What encode's output looks like

  /** Every "%" in rendered tokens (none of them a literal "%") begins the escape of one of the tokens. */
  lemma {:induction false} PercentBeginsEscape(ts: seq<Token>, i: nat)
    requires NoLiteralPercent(ts)
    requires i < |Render(ts)| && Render(ts)[i] == '%'
    ensures exists k :: 0 <= k < |ts| && ts[k].Esc? && i + 2 < |Render(ts)|
                        && Render(ts)[i + 1] == HexDigit(ts[k].b / 16)
                        && Render(ts)[i + 2] == HexDigit(ts[k].b % 16)
  {
    var head, rest := TokenText(ts[0]), Render(ts[1..]);
    assert Render(ts) == head + rest;
    if i >= |head| {
      assert NoLiteralPercent(ts[1..]) by {
        forall j | 0 <= j < |ts| - 1 ensures ts[1..][j] != Lit('%') { assert ts[1..][j] == ts[j + 1]; }
      }
      assert rest[i - |head|] == Render(ts)[i];
      PercentBeginsEscape(ts[1..], i - |head|);
      var k :| 0 <= k < |ts[1..]| && ts[1..][k].Esc? && i - |head| + 2 < |rest|
               && rest[i - |head| + 1] == HexDigit(ts[1..][k].b / 16)
               && rest[i - |head| + 2] == HexDigit(ts[1..][k].b % 16);
      assert ts[k + 1] == ts[1..][k];
      assert Render(ts)[i + 1] == rest[i - |head| + 1] && Render(ts)[i + 2] == rest[i - |head| + 2];
    } else {
      assert ts[0].Esc? && i == 0;
    }
  }

  /** Every character of rendered tokens is a literal token's character, "%" or a hexadecimal digit. */
  lemma {:induction false} RenderedCharacters(ts: seq<Token>, i: nat)
    requires i < |Render(ts)|
    ensures Render(ts)[i] == '%' || '0' <= Render(ts)[i] <= '9' || 'A' <= Render(ts)[i] <= 'F'
            || Lit(Render(ts)[i]) in ts
  {
    var head, rest := TokenText(ts[0]), Render(ts[1..]);
    assert Render(ts) == head + rest;
    if i >= |head| {
      RenderedCharacters(ts[1..], i - |head|);
      assert Render(ts)[i] == rest[i - |head|];
      assert Lit(rest[i - |head|]) in ts[1..] ==> Lit(rest[i - |head|]) in ts;
    }
  }

  lemma {:induction false} UriTokensLiterals(s: string, c: char)
    requires Lit(c) in UriTokens(s)
    ensures Unescaped(c)
  {
    if s != [] {
      var a, b := CharTokens(s[0]), UriTokens(s[1..]);
      if Lit(c) !in a {
        assert Lit(c) in b;
        UriTokensLiterals(s[1..], c);
      }
    }
  }

  /** The characters encode can output. */
  predicate EncodedChar(c: char) {
    Unescaped(c) || c in "%@:$,+[]"
  }

  /** encode's output is made of unescaped characters, "%" escapes and the
      characters it puts back; in particular it holds no "#", "&" or "=". */
  lemma EncodeAlphabet(s: string)
    ensures forall i :: 0 <= i < |Encode(s)| ==> EncodedChar(Encode(s)[i])
    ensures '#' !in Encode(s) && '&' !in Encode(s) && '=' !in Encode(s)
  {
    EncodeIsRelaxedEncoding(s);
    RelaxedAlphabet(s);
  }

  lemma RelaxedAlphabet(s: string)
    ensures forall i :: 0 <= i < |RelaxedEncoding(s)| ==> EncodedChar(RelaxedEncoding(s)[i])
    ensures '#' !in RelaxedEncoding(s) && '&' !in RelaxedEncoding(s) && '=' !in RelaxedEncoding(s)
  {
    var t0 := UriTokens(s);
    var ts := RelaxAll(t0);
    forall i | 0 <= i < |Render(ts)| ensures EncodedChar(Render(ts)[i]) {
      var c := Render(ts)[i];
      RenderedCharacters(ts, i);
      if Lit(c) in ts {
        var k :| 0 <= k < |ts| && ts[k] == Lit(c);
        if t0[k].Lit? {
          assert t0[k] in t0;
          UriTokensLiterals(s, t0[k].c);
        }
        RelaxLiteral(t0[k], c);
      }
    }
  }

  /** A relaxed token that is a literal is an unescaped character or one encode puts back. */
  lemma RelaxLiteral(t: Token, c: char)
    requires Relax(t) == Lit(c)
    requires t.Lit? ==> Unescaped(t.c)
    ensures EncodedChar(c)
  {
  }

  /** The escapes encode puts back, in both letter cases. */
  const RestoredEscapes: set<string> :=
    {"%40", "%3A", "%3a", "%24", "%2C", "%2c", "%20", "%5B", "%5b", "%5D", "%5d"}

  /** encode's output never contains %40, %3A, %24, %2C, %20, %5B or %5D, in either letter case. */
  lemma EncodeLeavesNoRestoredEscape(s: string)
    ensures forall pat, i :: pat in RestoredEscapes ==> !OccursAt(Encode(s), pat, i)
  {
    EncodeIsRelaxedEncoding(s);
    RelaxedLeavesNoRestoredEscape(s);
  }

  lemma RelaxedLeavesNoRestoredEscape(s: string)
    ensures forall pat, i :: pat in RestoredEscapes ==> !OccursAt(RelaxedEncoding(s), pat, i)
  {
    var t0 := UriTokens(s);
    var ts := RelaxAll(t0);
    var r := Render(ts);
    UriTokensNoLiteralPercent(s);
    assert NoLiteralPercent(ts) by {
      forall k | 0 <= k < |ts| ensures ts[k] != Lit('%') {
        assert t0[k] != Lit('%');
      }
    }
    forall pat, i | pat in RestoredEscapes ensures !OccursAt(r, pat, i) {
      if OccursAt(r, pat, i) {
        assert r[i..i + 3] == pat;
        assert r[i] == pat[0] == '%';
        PercentBeginsEscape(ts, i);
        var k :| 0 <= k < |ts| && ts[k].Esc? && i + 2 < |r|
                 && r[i + 1] == HexDigit(ts[k].b / 16) && r[i + 2] == HexDigit(ts[k].b % 16);
        assert r[i + 1] == pat[1] && r[i + 2] == pat[2];
        RestoredEscapeByte(pat, ts[k].b);
        assert false;
      }
    }
  }

  /** The value of an upper-case hexadecimal digit, or -1. */
  function HexValue(d: char): int {
    if '0' <= d <= '9' then d as int - '0' as int
    else if 'A' <= d <= 'F' then d as int - 'A' as int + 10
    else -1
  }

  /** An escape that reads as one of the restored patterns is the escape of a restored byte. */
  lemma RestoredEscapeByte(pat: string, b: Byte)
    requires pat in RestoredEscapes
    requires HexDigit(b / 16) == pat[1] && HexDigit(b % 16) == pat[2]
    ensures Restored(b).Some?
  {
    assert HexValue(HexDigit(b / 16)) == b / 16 && HexValue(HexDigit(b % 16)) == b % 16;
    assert b == 16 * HexValue(pat[1]) + HexValue(pat[2]);
  }

  lemma {:induction false} RelaxedEncodingAppend(a: string, b: string)
    ensures RelaxedEncoding(a + b) == RelaxedEncoding(a) + RelaxedEncoding(b)
  {
    UriTokensAppend(a, b);
    RelaxAllAppend(UriTokens(a), UriTokens(b));
    RenderAppend(RelaxAll(UriTokens(a)), RelaxAll(UriTokens(b)));
  }

  lemma RelaxAllAppend(a: seq<Token>, b: seq<Token>)
    ensures RelaxAll(a + b) == RelaxAll(a) + RelaxAll(b)
  {
    var l, r := RelaxAll(a + b), RelaxAll(a) + RelaxAll(b);
    forall i | 0 <= i < |l| ensures l[i] == r[i] {
      if i < |a| { assert (a + b)[i] == a[i]; } else { assert (a + b)[i] == b[i - |a|]; }
    }
  }

  lemma {:induction false} UriTokensAppend(a: string, b: string)
    ensures UriTokens(a + b) == UriTokens(a) + UriTokens(b)
  {
    if a == [] {
      assert a + b == b;
    } else {
      assert (a + b)[0] == a[0] && (a + b)[1..] == a[1..] + b;
      calc {
        UriTokens(a + b);
        CharTokens(a[0]) + UriTokens(a[1..] + b);
        { UriTokensAppend(a[1..], b); }
        CharTokens(a[0]) + (UriTokens(a[1..]) + UriTokens(b));
        UriTokens(a) + UriTokens(b);
      }
    }
  }

  /** Text made only of unescaped characters and @ : $ , [ ] comes out of encode unchanged. */
  lemma {:induction false} EncodeVerbatim(s: string)
    requires forall i :: 0 <= i < |s| ==> Unescaped(s[i]) || s[i] in "@:$,[]"
    ensures Encode(s) == s
  {
    EncodeIsRelaxedEncoding(s);
    RelaxedVerbatim(s);
  }

  lemma {:induction false} RelaxedVerbatim(s: string)
    requires forall i :: 0 <= i < |s| ==> Unescaped(s[i]) || s[i] in "@:$,[]"
    ensures RelaxedEncoding(s) == s
  {
    if s != [] {
      var c := s[0];
      assert s == [c] + s[1..];
      RelaxedEncodingAppend([c], s[1..]);
      RelaxedVerbatim(s[1..]);
      RelaxedChar(c);
    }
  }

  lemma RelaxedChar(c: char)
    requires Unescaped(c) || c in "@:$,[]"
    ensures RelaxedEncoding([c]) == [c]
  {
    assert [c][1..] == [];
    assert UriTokens([c]) == CharTokens(c);
    if Unescaped(c) {
      assert RelaxAll([Lit(c)]) == [Lit(c)];
      assert [Lit(c)][1..] == [];
    } else {
      assert c as int < 0x80;
      assert CharTokens(c) == [Esc(c as int)];
      assert RelaxAll([Esc(c as int)]) == [Lit(c)];
      assert [Lit(c)][1..] == [];
    }
    assert Render([Lit(c)]) == TokenText(Lit(c)) + Render([]);
  }

  /** Spaces come out of encode as "+", one for each. */
  lemma EncodeSpaces(s: string)
    requires forall i :: 0 <= i < |s| ==> s[i] == ' '
    ensures Encode(s) == seq(|s|, i => '+')
  {
    EncodeIsRelaxedEncoding(s);
    RelaxedSpaces(s);
  }

  lemma {:induction false} RelaxedSpaces(s: string)
    requires forall i :: 0 <= i < |s| ==> s[i] == ' '
    ensures RelaxedEncoding(s) == seq(|s|, i => '+')
  {
    if s != [] {
      assert s == [' '] + s[1..];
      RelaxedEncodingAppend([' '], s[1..]);
      RelaxedSpaces(s[1..]);
      assert [' '][1..] == [];
      assert UriTokens([' ']) == CharTokens(' ') == [Esc(0x20)];
      assert RelaxAll([Esc(0x20)]) == [Lit('+')];
      assert [Lit('+')][1..] == [];
      assert Render([Lit('+')]) == TokenText(Lit('+')) + Render([]);
    }
  }

  /** encode works character by character: encoding a concatenation is
      concatenating the encodings, even though the replace calls run over the whole text. */
  lemma EncodeAppend(a: string, b: string)
    ensures Encode(a + b) == Encode(a) + Encode(b)
  {
    EncodeIsRelaxedEncoding(a + b);
    EncodeIsRelaxedEncoding(a);
    EncodeIsRelaxedEncoding(b);
    RelaxedEncodingAppend(a, b);
  }

  // ---------------------------------------------------------------------------
  // buildURL

  /** The text a query value is written as before it is encoded: dates through
      toISOString, plain objects through JSON.stringify, anything else through String(). */
  function SerializeParam(h: Host, v: Value): string {
    if Util.IsDate(v) then h.isoString(v)
    else if Util.IsPlainObject(v) then h.stringify(v)
    else JsString(h, v)
  }

  function Pair(h: Host, key: string, v: Value): string {
    Encode(key) + "=" + Encode(SerializeParam(h, v))
  }

  /** The pairs of one key with each of several values, in order. */
  function PairsOf(h: Host, key: string, vals: seq<Value>): (r: seq<string>)
    ensures |r| == |vals|
  {
    if vals == [] then []
    else
      var n := |vals| - 1;
      PairsOf(h, key, vals[..n]) + [Pair(h, key, vals[n])]
  }

  /** The pairs one parameter contributes. */
  function ParamPairs(h: Host, key: string, val: Value): seq<string> {
    if val.Null? || val.Undefined? then []
    else if val.Arr? then PairsOf(h, key + "[]", val.elems)
    else [Pair(h, key, val)]
  }

  /** The pairs of all parameters, in key order. */
  function QueryPairs(h: Host, entries: seq<Prop>): seq<string> {
    if entries == [] then []
    else
      var n := |entries| - 1;
      QueryPairs(h, entries[..n]) + ParamPairs(h, entries[n].0, entries[n].1)
  }

  /** The url with everything from the first "#" dropped. */
  function StripFragment(url: string): string {
    var mark := IndexOf(url, "#");
    if mark == -1 then url else url[..mark]
  }

  /** What buildURL returns. */
  function BuiltURL(h: Host, url: string, params: Value): string {
    if !Truthy(params) then url
    else
      var pairs := QueryPairs(h, OwnEntries(params));
      if pairs == [] then url
      else
        var base := StripFragment(url);
        base + (if IndexOf(base, "?") == -1 then "?" else "&") + Join(pairs, "&")
  }

  /** A pair as it sits in the query string: not empty, and free of the "#"
      that would start a fragment and of the "&" that separates pairs. */
  predicate QueryPart(p: string) {
    p != [] && '#' !in p && '&' !in p
  }

  /** Each pair is a query part, and splits at "=" back into the encoded key
      and the encoded value. */
  lemma PairShape(h: Host, key: string, v: Value)
    ensures QueryPart(Pair(h, key, v))
    ensures Split(Pair(h, key, v), "=") == [Encode(key), Encode(SerializeParam(h, v))]
  {
    var k, w := Encode(key), Encode(SerializeParam(h, v));
    EncodeAlphabet(key);
    EncodeAlphabet(SerializeParam(h, v));
    assert Pair(h, key, v)[|k|] == '=';
    JoinCons(k, [w], "=");
    assert Join([k, w], "=") == Pair(h, key, v) by {
      assert [k, w] == [k] + [w];
    }
    SplitJoin([k, w], '=');
  }

  lemma {:induction false} PairsOfQueryParts(h: Host, key: string, vals: seq<Value>)
    ensures forall i :: 0 <= i < |PairsOf(h, key, vals)| ==> QueryPart(PairsOf(h, key, vals)[i])
  {
    if vals != [] {
      var n := |vals| - 1;
      PairsOfQueryParts(h, key, vals[..n]);
      var a, b := PairsOf(h, key, vals[..n]), Pair(h, key, vals[n]);
      PairShape(h, key, vals[n]);
      forall i | 0 <= i < |a + [b]| ensures QueryPart((a + [b])[i]) {
        if i < |a| { assert (a + [b])[i] == a[i]; }
      }
    }
  }

  /** Every pair buildURL produces is a query part. */
  lemma {:induction false} QueryPairsQueryParts(h: Host, entries: seq<Prop>)
    ensures forall i :: 0 <= i < |QueryPairs(h, entries)| ==> QueryPart(QueryPairs(h, entries)[i])
  {
    if entries != [] {
      var n := |entries| - 1;
      QueryPairsQueryParts(h, entries[..n]);
      var a, b := QueryPairs(h, entries[..n]), ParamPairs(h, entries[n].0, entries[n].1);
      var v := entries[n].1;
      if v.Arr? {
        PairsOfQueryParts(h, entries[n].0 + "[]", v.elems);
      } else if !(v.Null? || v.Undefined?) {
        PairShape(h, entries[n].0, v);
      }
      forall i | 0 <= i < |a + b| ensures QueryPart((a + b)[i]) {
        if i >= |a| { assert (a + b)[i] == b[i - |a|]; } else { assert (a + b)[i] == a[i]; }
      }
    }
  }

  lemma QueryPairsSnoc(h: Host, entries: seq<Prop>, i: nat)
    requires i < |entries|
    ensures QueryPairs(h, entries[..i + 1]) == QueryPairs(h, entries[..i]) + ParamPairs(h, entries[i].0, entries[i].1)
  {
    assert entries[..i + 1][..i] == entries[..i];
  }

  lemma PairsOfSnoc(h: Host, key: string, vals: seq<Value>, j: nat)
    requires j < |vals|
    ensures PairsOf(h, key, vals[..j + 1]) == PairsOf(h, key, vals[..j]) + [Pair(h, key, vals[j])]
  {
    assert vals[..j + 1][..j] == vals[..j];
  }

  /** The pairs of a parameter that is neither null nor undefined: one per array
      element under key + "[]", or one for the value itself. */
  lemma ParamPairsOfValues(h: Host, name: string, val: Value)
    requires !(val.Null? || val.Undefined?)
    ensures ParamPairs(h, name, val)
            == PairsOf(h, if val.Arr? then name + "[]" else name, if val.Arr? then val.elems else [val])
  {
    assert [val][..0] == [];
  }

  lemma AppendAssoc(a: seq<string>, b: seq<string>, c: seq<string>)
    ensures (a + b) + c == a + (b + c)
  {
  }

  /** The tail of buildURL, once the pairs are known. */
  lemma BuiltURLFromPairs(h: Host, url: string, params: Value, parts: seq<string>)
    requires Truthy(params) && parts == QueryPairs(h, OwnEntries(params))
    ensures Join(parts, "&") == [] <==> parts == []
    ensures BuiltURL(h, url, params)
            == if parts == [] then url
               else StripFragment(url) + (if IndexOf(StripFragment(url), "?") == -1 then "?" else "&") + Join(parts, "&")
  {
    QueryPairsQueryParts(h, OwnEntries(params));
    JoinNonEmpty(parts, "&");
  }

  /** Stripping the fragment leaves the longest prefix of the url without "#":
      either the whole url, or the part before its first "#". */
  lemma StripFragmentShape(url: string)
    ensures var base := StripFragment(url);
      && '#' !in base && base <= url
      && (base == url || url[|base|] == '#')
  {
    var mark := IndexOf(url, "#");
    IndexOfAbsent(url, '#');
    if mark != -1 {
      assert url[mark..mark + 1] == "#";
      forall j | 0 <= j < mark ensures url[j] != '#' {
        if url[j] == '#' {
          assert url[j..j + 1] == "#";
          assert OccursAt(url, "#", j);
        }
      }
      assert forall j :: 0 <= j < mark ==> url[..mark][j] == url[j];
    }
  }

  lemma QueryPairsLast(h: Host, entries: seq<Prop>)
    requires entries != []
    ensures QueryPairs(h, entries)
            == QueryPairs(h, entries[..|entries| - 1]) + ParamPairs(h, entries[|entries| - 1].0, entries[|entries| - 1].1)
  {
  }

  /** The pairs of several parameters are the pairs of each, in key order. */
  lemma {:induction false} QueryPairsAppend(h: Host, a: seq<Prop>, b: seq<Prop>)
    ensures QueryPairs(h, a + b) == QueryPairs(h, a) + QueryPairs(h, b)
    decreases |b|
  {
    if b == [] {
      assert a + b == a;
    } else {
      var n := |b| - 1;
      var ab := a + b;
      var last := ParamPairs(h, b[n].0, b[n].1);
      QueryPairsLast(h, ab);
      assert ab[..|ab| - 1] == a + b[..n];
      assert ab[|ab| - 1] == b[n];
      calc {
        QueryPairs(h, ab);
        QueryPairs(h, ab[..|ab| - 1]) + ParamPairs(h, ab[|ab| - 1].0, ab[|ab| - 1].1);
        QueryPairs(h, a + b[..n]) + last;
        { QueryPairsAppend(h, a, b[..n]); }
        (QueryPairs(h, a) + QueryPairs(h, b[..n])) + last;
        { AppendAssoc(QueryPairs(h, a), QueryPairs(h, b[..n]), last); }
        QueryPairs(h, a) + (QueryPairs(h, b[..n]) + last);
        QueryPairs(h, a) + QueryPairs(h, b);
      }
    }
  }

  /** Parameters whose values are all null or undefined add no pair, so
      buildURL returns the url as it was, fragment included. */
  lemma NullParamsAddNothing(h: Host, url: string, params: Value)
    requires forall i :: 0 <= i < |OwnEntries(params)| ==> OwnEntries(params)[i].1.Null? || OwnEntries(params)[i].1.Undefined?
    ensures QueryPairs(h, OwnEntries(params)) == []
    ensures BuiltURL(h, url, params) == url
  {
    NullEntriesAddNothing(h, OwnEntries(params));
  }

  lemma {:induction false} NullEntriesAddNothing(h: Host, entries: seq<Prop>)
    requires forall i :: 0 <= i < |entries| ==> entries[i].1.Null? || entries[i].1.Undefined?
    ensures QueryPairs(h, entries) == []
  {
    if entries != [] {
      var n := |entries| - 1;
      NullEntriesAddNothing(h, entries[..n]);
    }
  }

  /** With at least one pair, buildURL's result is the url without its
      fragment, then "&" when that part already holds a "?" and "?" otherwise,
      then a query that splits at "&" into exactly the pairs. */
  lemma BuiltURLQuery(h: Host, url: string, params: Value)
    requires Truthy(params) && QueryPairs(h, OwnEntries(params)) != []
    ensures var r, base, pairs := BuiltURL(h, url, params), StripFragment(url), QueryPairs(h, OwnEntries(params));
      && |r| > |base| && r[..|base|] == base
      && r[|base|] == (if '?' in base then '&' else '?')
      && Split(r[|base| + 1..], "&") == pairs
  {
    var base, pairs := StripFragment(url), QueryPairs(h, OwnEntries(params));
    IndexOfAbsent(base, '?');
    QueryPairsQueryParts(h, OwnEntries(params));
    SplitJoin(pairs, '&');
    QueryAfter(base, if IndexOf(base, "?") == -1 then '?' else '&', Join(pairs, "&"));
  }

  /** The url part, one separator character and the query: the pieces can be read back. */
  lemma QueryAfter(base: string, sep: char, query: string)
    ensures var r := base + [sep] + query;
      |r| > |base| && r[..|base|] == base && r[|base|] == sep && r[|base| + 1..] == query
  {
    var r := base + [sep] + query;
    assert r[..|base|] == base;
    assert r[|base| + 1..] == query;
  }

  /** With at least one pair, buildURL's result holds no "#": the fragment is gone. */
  lemma BuiltURLNoFragment(h: Host, url: string, params: Value)
    requires Truthy(params) && QueryPairs(h, OwnEntries(params)) != []
    ensures '#' !in BuiltURL(h, url, params)
  {
    var base, pairs := StripFragment(url), QueryPairs(h, OwnEntries(params));
    StripFragmentShape(url);
    QueryPairsQueryParts(h, OwnEntries(params));
    JoinAvoids(pairs, "&", '#');
  }

  /** The inner forEach of buildURL: pushes one pair per value onto parts. */
  method PushPairs(h: Host, parts: seq<string>, key: string, values: seq<Value>) returns (r: seq<string>)
    ensures r == parts + PairsOf(h, key, values)
  {
    r := parts;
    var j := 0;
    assert values[..0] == [];
    while j < |values|
      invariant 0 <= j <= |values|
      invariant r == parts + PairsOf(h, key, values[..j])
    {
      PairsOfSnoc(h, key, values, j);
      AppendAssoc(parts, PairsOf(h, key, values[..j]), [Pair(h, key, values[j])]);
      r := r + [Pair(h, key, values[j])];
      j := j + 1;
    }
    assert values[..j] == values;
  }

  /** buildURL: serialises params onto url. */
  method BuildURL(h: Host, url: string, params: Value) returns (r: string)
    ensures r == BuiltURL(h, url, params)
    ensures !Truthy(params) ==> r == url
  {
    if !Truthy(params) {
      return url;
    }
    var parts: seq<string> := [];
    var entries := OwnEntries(params);
    var i := 0;
    assert entries[..0] == [];
    while i < |entries|
      invariant 0 <= i <= |entries|
      invariant parts == QueryPairs(h, entries[..i])
    {
      var key, val := entries[i].0, entries[i].1;
      QueryPairsSnoc(h, entries, i);
      if val.Null? || val.Undefined? {
        assert ParamPairs(h, key, val) == [];
        assert parts + [] == parts;
      } else {
        ParamPairsOfValues(h, key, val);
        if val.Arr? {
          parts := PushPairs(h, parts, key + "[]", val.elems);
        } else {
          parts := PushPairs(h, parts, key, [val]);
        }
      }
      i := i + 1;
    }
    assert entries[..i] == entries;
    var serialized := Join(parts, "&");
    BuiltURLFromPairs(h, url, params, parts);
    r := url;
    if serialized != "" {
      var mark := IndexOf(r, "#");
      if mark != -1 {
        r := r[..mark];
      }
      r := r + (if IndexOf(r, "?") == -1 then "?" else "&") + serialized;
    }
  }
}

/** `JSON.stringify` of strings (section 25.5.2 of ECMA-262) and `JSON.parse` of any text
    (section 25.5.1 of ECMA-262, section 2 to 7 of RFC 8259). */
module Json {
  import opened Tables
  import opened Base64Url
  import opened Utf8

  /** A number keeps its text; turning it into a double is not modelled. */
  datatype Json =
    | Null
    | Boolean(b: bool)
    | Number(text: JsString)
    | Text(s: JsString)
    | Array(items: seq<Json>)
    | Object(members: map<JsString, Json>)

  function Unit(c: char): CodeUnit
    requires c < 128 as char
  {
    c as int
  }

  /** An ASCII literal as code units. */
  function Ascii(s: string): JsString
    requires forall i :: 0 <= i < |s| ==> s[i] < 128 as char
  {
    seq(|s|, i requires 0 <= i < |s| => Unit(s[i]))
  }

  const QUOTE: CodeUnit := '"' as int
  const BACKSLASH: CodeUnit := '\\' as int

  // ---------------------------------------------------------------- quoting

  function HexDigit(v: int): CodeUnit
    requires 0 <= v < 16
  {
    if v < 10 then '0' as int + v else 'a' as int + (v - 10)
  }

  /** A backslash, `u` and four lower-case hexadecimal digits. */
  function UnicodeEscape(u: CodeUnit): JsString {
    [BACKSLASH, 'u' as int, HexDigit(u / 4096), HexDigit(u / 256 % 16), HexDigit(u / 16 % 16), HexDigit(u % 16)]
  }

  function QuoteUnit(u: CodeUnit): JsString {
    if u == 0x08 then [BACKSLASH, 'b' as int]
    else if u == 0x09 then [BACKSLASH, 't' as int]
    else if u == 0x0A then [BACKSLASH, 'n' as int]
    else if u == 0x0C then [BACKSLASH, 'f' as int]
    else if u == 0x0D then [BACKSLASH, 'r' as int]
    else if u == QUOTE || u == BACKSLASH then [BACKSLASH, u]
    else if u < 0x20 || IsHigh(u) || IsLow(u) then UnicodeEscape(u)
    else [u]
  }

  /** Escapes per code point: a surrogate pair is copied, a lone surrogate is escaped. */
  function QuoteBody(s: JsString): JsString {
    if s == [] then []
    else (if StartsWithPair(s) then s[..2] else QuoteUnit(s[0])) + QuoteBody(s[Width(s)..])
  }

  function Quote(s: JsString): JsString {
    [QUOTE] + QuoteBody(s) + [QUOTE]
  }

  // ---------------------------------------------------------------- parsing

  function HexValue(u: CodeUnit): Option<int> {
    if '0' as int <= u <= '9' as int then Some(u - '0' as int)
    else if 'a' as int <= u <= 'f' as int then Some(u - 'a' as int + 10)
    else if 'A' as int <= u <= 'F' as int then Some(u - 'A' as int + 10)
    else None
  }

  function Join(a: int, b: int, c: int, d: int): Option<CodeUnit> {
    var v := a * 4096 + b * 256 + c * 16 + d;
    if 0 <= v < 0x1_0000 then Some(v) else None
  }

  function Hex4(s: JsString): (r: Option<CodeUnit>) {
    if |s| < 4 then None
    else
      var a, b, c, d := HexValue(s[0]), HexValue(s[1]), HexValue(s[2]), HexValue(s[3]);
      if a.None? || b.None? || c.None? || d.None? then None
      else Join(a.value, b.value, c.value, d.value)
  }

  /** The escape after a backslash: its code unit and the rest of the text. */
  function Escape(s: JsString): (r: Option<(CodeUnit, JsString)>)
    ensures r.Some? ==> |r.value.1| < |s|
  {
    if s == [] then None
    else if s[0] == QUOTE || s[0] == BACKSLASH || s[0] == '/' as int then Some((s[0], s[1..]))
    else if s[0] == 'b' as int then Some((0x08, s[1..]))
    else if s[0] == 't' as int then Some((0x09, s[1..]))
    else if s[0] == 'n' as int then Some((0x0A, s[1..]))
    else if s[0] == 'f' as int then Some((0x0C, s[1..]))
    else if s[0] == 'r' as int then Some((0x0D, s[1..]))
    else if s[0] == 'u' as int then
      var h := Hex4(s[1..]);
      if h.None? then None else Some((h.value, s[5..]))
    else None
  }

  /** The characters up to the closing quote, and the text after it. */
  function Unquote(s: JsString): (r: Option<(JsString, JsString)>)
    ensures r.Some? ==> |r.value.1| < |s|
  {
    if s == [] || s[0] < 0x20 then None
    else if s[0] == QUOTE then Some(([], s[1..]))
    else if s[0] == BACKSLASH then
      var e := Escape(s[1..]);
      if e.None? then None
      else
        var rest := Unquote(e.value.1);
        if rest.None? then None else Some(([e.value.0] + rest.value.0, rest.value.1))
    else
      var rest := Unquote(s[1..]);
      if rest.None? then None else Some(([s[0]] + rest.value.0, rest.value.1))
  }

  function SkipSpace(s: JsString): (r: JsString)
    ensures |r| <= |s|
  {
    if s != [] && (s[0] == 0x20 || s[0] == 0x09 || s[0] == 0x0A || s[0] == 0x0D) then SkipSpace(s[1..]) else s
  }

  predicate IsDigit(u: CodeUnit) {
    '0' as int <= u <= '9' as int
  }

  function SkipDigits(s: JsString): (r: JsString)
    ensures |r| <= |s|
  {
    if s != [] && IsDigit(s[0]) then SkipDigits(s[1..]) else s
  }

  /** At least one digit. */
  function Digits1(s: JsString): (r: Option<JsString>)
    ensures r.Some? ==> |r.value| < |s|
  {
    if s != [] && IsDigit(s[0]) then Some(SkipDigits(s[1..])) else None
  }

  function AfterFraction(s: JsString): (r: Option<JsString>)
    ensures r.Some? ==> |r.value| <= |s|
  {
    if s != [] && s[0] == '.' as int then Digits1(s[1..]) else Some(s)
  }

  function AfterExponent(s: JsString): (r: Option<JsString>)
    ensures r.Some? ==> |r.value| <= |s|
  {
    if s != [] && (s[0] == 'e' as int || s[0] == 'E' as int) then
      Digits1(if |s| > 1 && (s[1] == '+' as int || s[1] == '-' as int) then s[2..] else s[1..])
    else Some(s)
  }

  /** The text after a number: no leading zeros, digits on both sides of the point. */
  function AfterNumber(s: JsString): (r: Option<JsString>)
    ensures r.Some? ==> |r.value| < |s|
  {
    var unsigned := if s != [] && s[0] == '-' as int then s[1..] else s;
    var whole := if unsigned != [] && unsigned[0] == '0' as int then Some(unsigned[1..]) else Digits1(unsigned);
    if whole.None? then None
    else
      var fraction := AfterFraction(whole.value);
      if fraction.None? then None else AfterExponent(fraction.value)
  }

  predicate Begins(s: JsString, word: JsString) {
    |word| <= |s| && s[..|word|] == word
  }

  function ParseValue(s: JsString): (r: Option<(Json, JsString)>)
    ensures r.Some? ==> |r.value.1| < |s|
    decreases |s|, 0
  {
    if s == [] then None
    else if s[0] == QUOTE then
      var t := Unquote(s[1..]);
      if t.None? then None else Some((Text(t.value.0), t.value.1))
    else if s[0] == '{' as int then
      var inner := SkipSpace(s[1..]);
      if inner != [] && inner[0] == '}' as int then Some((Object(map[]), inner[1..]))
      else ParseMembers(inner, map[])
    else if s[0] == '[' as int then
      var inner := SkipSpace(s[1..]);
      if inner != [] && inner[0] == ']' as int then Some((Array([]), inner[1..]))
      else ParseItems(inner, [])
    else if Begins(s, Ascii("true")) then Some((Boolean(true), s[4..]))
    else if Begins(s, Ascii("false")) then Some((Boolean(false), s[5..]))
    else if Begins(s, Ascii("null")) then Some((Null, s[4..]))
    else
      var rest := AfterNumber(s);
      if rest.None? then None else Some((Number(s[..|s| - |rest.value|]), rest.value))
  }

  /** A value and the first character after the space that follows it. */
  function ParseThen(s: JsString): (r: Option<(Json, CodeUnit, JsString)>)
    ensures r.Some? ==> |r.value.2| < |s|
    decreases |s|, 1
  {
    var v := ParseValue(s);
    if v.None? then None
    else
      var next := SkipSpace(v.value.1);
      if next == [] then None else Some((v.value.0, next[0], next[1..]))
  }

  /** The key of a member, up to and including the colon and the space around it. */
  function ParseKey(s: JsString): (r: Option<(JsString, JsString)>)
    ensures r.Some? ==> |r.value.1| < |s|
  {
    if s == [] || s[0] != QUOTE then None
    else
      var key := Unquote(s[1..]);
      if key.None? then None
      else
        var colon := SkipSpace(key.value.1);
        if colon == [] || colon[0] != ':' as int then None else Some((key.value.0, SkipSpace(colon[1..])))
  }

  /** A later member with the same key replaces the earlier one. */
  function ParseMembers(s: JsString, soFar: map<JsString, Json>): (r: Option<(Json, JsString)>)
    ensures r.Some? ==> |r.value.1| < |s|
    decreases |s|, 0
  {
    var key := ParseKey(s);
    if key.None? then None
    else
      var item := ParseThen(key.value.1);
      if item.None? then None
      else
        var members := soFar[key.value.0 := item.value.0];
        if item.value.1 == '}' as int then Some((Object(members), item.value.2))
        else if item.value.1 == ',' as int then ParseMembers(SkipSpace(item.value.2), members)
        else None
  }

  function ParseItems(s: JsString, soFar: seq<Json>): (r: Option<(Json, JsString)>)
    ensures r.Some? ==> |r.value.1| < |s|
    decreases |s|, 2
  {
    var item := ParseThen(s);
    if item.None? then None
    else
      var items := soFar + [item.value.0];
      if item.value.1 == ']' as int then Some((Array(items), item.value.2))
      else if item.value.1 == ',' as int then ParseItems(SkipSpace(item.value.2), items)
      else None
  }

  /** `JSON.parse`; None is a SyntaxError. */
  function Parse(s: JsString): Option<Json> {
    var v := ParseValue(SkipSpace(s));
    if v.None? || SkipSpace(v.value.1) != [] then None else Some(v.value.0)
  }

  // ---------------------------------------------------------------- quoting loses nothing

  lemma HexDigitInverts(v: int)
    requires 0 <= v < 16
    ensures HexValue(HexDigit(v)) == Some(v)
  {
  }

  lemma HexInverts(u: CodeUnit)
    ensures Hex4([HexDigit(u / 4096), HexDigit(u / 256 % 16), HexDigit(u / 16 % 16), HexDigit(u % 16)]) == Some(u)
  {
    hide HexValue, HexDigit;
    HexDigitInverts(u / 4096);
    HexDigitInverts(u / 256 % 16);
    HexDigitInverts(u / 16 % 16);
    HexDigitInverts(u % 16);
    var q := u / 16;
    var p := q / 16;
    assert u == q * 16 + u % 16 && q == p * 16 + q % 16 && p == p / 16 * 16 + p % 16;
    assert u / 256 == p && u / 4096 == p / 16;
  }

  /** What `Unquote` gives when the first character decodes to u. */
  function Before(u: CodeUnit, tail: Option<(JsString, JsString)>): Option<(JsString, JsString)> {
    if tail.None? then None else Some(([u] + tail.value.0, tail.value.1))
  }

  lemma PlainUnquotes(u: CodeUnit, rest: JsString)
    requires u >= 0x20 && u != QUOTE && u != BACKSLASH
    ensures Unquote([u] + rest) == Before(u, Unquote(rest))
  {
  }

  lemma EscapeUnquotes(u: CodeUnit, escape: JsString, rest: JsString)
    requires Escape(escape + rest) == Some((u, rest))
    ensures Unquote([BACKSLASH] + escape + rest) == Before(u, Unquote(rest))
  {
  }

  lemma LongEscapes(u: CodeUnit, rest: JsString)
    ensures Escape(UnicodeEscape(u)[1..] + rest) == Some((u, rest))
  {
    HexInverts(u);
    var hex := [HexDigit(u / 4096), HexDigit(u / 256 % 16), HexDigit(u / 16 % 16), HexDigit(u % 16)];
    assert UnicodeEscape(u)[1..] + rest == ['u' as int] + (hex + rest);
    assert (UnicodeEscape(u)[1..] + rest)[1..] == hex + rest;
    assert (UnicodeEscape(u)[1..] + rest)[5..] == rest;
  }

  lemma StartsBackslash(u: CodeUnit)
    ensures |UnicodeEscape(u)| == 6 && UnicodeEscape(u)[0] == BACKSLASH
  {
  }

  lemma UnitUnquotes(u: CodeUnit, rest: JsString)
    ensures Unquote(QuoteUnit(u) + rest) == Before(u, Unquote(rest))
  {
    hide Unquote, UnicodeEscape;
    var q := QuoteUnit(u);
    if q == UnicodeEscape(u) {
      LongEscapes(u, rest);
      assert q[0] == BACKSLASH by { StartsBackslash(u); }
      assert q + rest == [BACKSLASH] + q[1..] + rest;
      EscapeUnquotes(u, q[1..], rest);
    } else if q == [u] {
      PlainUnquotes(u, rest);
    } else {
      assert (q[1..] + rest)[1..] == rest;
      assert q + rest == [BACKSLASH] + q[1..] + rest;
      EscapeUnquotes(u, q[1..], rest);
    }
  }

  lemma QuotePair(s: JsString, rest: JsString)
    requires StartsWithPair(s)
    requires Unquote(QuoteBody(s[2..]) + [QUOTE] + rest) == Some((s[2..], rest))
    ensures Unquote(QuoteBody(s) + [QUOTE] + rest) == Some((s, rest))
  {
    hide Unquote;
    var after := QuoteBody(s[2..]) + [QUOTE] + rest;
    PlainUnquotes(s[1], after);
    PlainUnquotes(s[0], [s[1]] + after);
    assert QuoteBody(s) + [QUOTE] + rest == [s[0]] + ([s[1]] + after);
    assert s == [s[0]] + ([s[1]] + s[2..]);
  }

  lemma QuoteSingle(s: JsString, rest: JsString)
    requires s != [] && !StartsWithPair(s)
    requires Unquote(QuoteBody(s[1..]) + [QUOTE] + rest) == Some((s[1..], rest))
    ensures Unquote(QuoteBody(s) + [QUOTE] + rest) == Some((s, rest))
  {
    hide Unquote, QuoteUnit;
    var after := QuoteBody(s[1..]) + [QUOTE] + rest;
    UnitUnquotes(s[0], after);
    assert QuoteBody(s) + [QUOTE] + rest == QuoteUnit(s[0]) + after;
    assert s == [s[0]] + s[1..];
  }

  lemma QuoteFirst(s: JsString, rest: JsString)
    requires s != [] && Unquote(QuoteBody(s[Width(s)..]) + [QUOTE] + rest) == Some((s[Width(s)..], rest))
    ensures Unquote(QuoteBody(s) + [QUOTE] + rest) == Some((s, rest))
  {
    hide Unquote;
    if StartsWithPair(s) { QuotePair(s, rest); } else { QuoteSingle(s, rest); }
  }

  /** For every string, whatever follows the closing quote. */
  lemma {:induction false} QuoteRoundTrip(s: JsString, rest: JsString)
    ensures Unquote(QuoteBody(s) + [QUOTE] + rest) == Some((s, rest))
  {
    if s == [] {
      assert QuoteBody(s) + [QUOTE] + rest == [QUOTE] + rest;
    } else {
      QuoteRoundTrip(s[Width(s)..], rest);
      QuoteFirst(s, rest);
    }
  }

  lemma PlainWellFormed(s: JsString)
    requires forall u :: u in s ==> !IsHigh(u) && !IsLow(u)
    ensures WellFormed(s)
  {
  }

  lemma {:induction false} QuoteBodyWellFormed(s: JsString)
    ensures WellFormed(QuoteBody(s))
  {
    if s != [] {
      QuoteBodyWellFormed(s[Width(s)..]);
      var first := if StartsWithPair(s) then s[..2] else QuoteUnit(s[0]);
      if StartsWithPair(s) {
        assert first[2..] == [] && WellFormed(first[2..]);
      } else {
        PlainWellFormed(first);
      }
      WellFormedConcat(first, QuoteBody(s[Width(s)..]));
    }
  }

  /** Quoted text has no lone surrogates, whatever the string had. */
  lemma QuoteWellFormed(s: JsString)
    ensures WellFormed(Quote(s))
  {
    QuoteBodyWellFormed(s);
    PlainWellFormed([QUOTE]);
    WellFormedConcat([QUOTE], QuoteBody(s));
    WellFormedConcat([QUOTE] + QuoteBody(s), [QUOTE]);
  }

  // ---------------------------------------------------------------- and escapes nothing that needs no escape

  /** Seven units have two-character escapes; other controls and lone surrogates are written as `u` and four
      lower-case hexadecimal digits; everything else stands for itself. */
  lemma EscapesExact(u: CodeUnit)
    ensures var q := QuoteUnit(u);
      if u in {0x08, 0x09, 0x0A, 0x0C, 0x0D, 0x22, 0x5C} then |q| == 2 && q[0] == 0x5C
      else if u < 0x20 || 0xD800 <= u <= 0xDFFF then
        && |q| == 6 && q[0] == 0x5C && q[1] == 'u' as int
        && forall i :: 2 <= i < 6 ==> '0' as int <= q[i] <= '9' as int || 'a' as int <= q[i] <= 'f' as int
      else q == [u]
  {
  }

  lemma {:induction false} QuoteGrows(s: JsString)
    ensures |QuoteBody(s)| >= |s|
  {
    if s != [] {
      EscapesExact(s[0]);
      QuoteGrows(s[Width(s)..]);
    }
  }

  lemma QuoteSplits(s: JsString)
    requires s != [] && QuoteBody(s) == s
    ensures QuoteBody(s[Width(s)..]) == s[Width(s)..]
    ensures StartsWithPair(s) || QuoteUnit(s[0]) == [s[0]]
  {
    hide QuoteUnit;
    EscapesExact(s[0]);
    QuoteGrows(s[Width(s)..]);
    var first := if StartsWithPair(s) then s[..2] else QuoteUnit(s[0]);
    assert s == first + QuoteBody(s[Width(s)..]);
    assert |first| == Width(s);
    assert s[Width(s)..] == QuoteBody(s[Width(s)..]);
  }

  predicate Unremarkable(u: CodeUnit) {
    u >= 0x20 && u != 0x22 && u != 0x5C
  }

  lemma {:induction false} PlainKept(s: JsString)
    requires WellFormed(s) && forall i :: 0 <= i < |s| ==> Unremarkable(s[i])
    ensures QuoteBody(s) == s
  {
    hide QuoteUnit;
    if s != [] {
      var rest := s[Width(s)..];
      forall i | 0 <= i < |rest| ensures Unremarkable(rest[i]) {
        assert rest[i] == s[i + Width(s)];
      }
      PlainKept(rest);
      EscapesExact(s[0]);
      assert Unremarkable(s[0]);
      assert s == s[..Width(s)] + rest;
    }
  }

  lemma {:induction false} KeptPlain(s: JsString)
    requires QuoteBody(s) == s
    ensures WellFormed(s) && forall i :: 0 <= i < |s| ==> Unremarkable(s[i])
  {
    hide QuoteUnit;
    if s != [] {
      var rest := s[Width(s)..];
      QuoteSplits(s);
      KeptPlain(rest);
      EscapesExact(s[0]);
      forall i | 0 <= i < |s| ensures Unremarkable(s[i]) {
        if i >= Width(s) { assert s[i] == rest[i - Width(s)]; }
      }
    }
  }

  /** Quoting leaves a string as it is exactly when it has no control character, quote, backslash or lone
      surrogate. */
  lemma {:induction false} QuoteKeepsIffPlain(s: JsString)
    ensures QuoteBody(s) == s <==>
            WellFormed(s) && forall i :: 0 <= i < |s| ==> s[i] >= 0x20 && s[i] != 0x22 && s[i] != 0x5C
  {
    hide QuoteBody;
    if QuoteBody(s) == s { KeptPlain(s); }
    if WellFormed(s) && forall i :: 0 <= i < |s| ==> Unremarkable(s[i]) { PlainKept(s); }
  }
}

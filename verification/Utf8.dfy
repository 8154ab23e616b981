/** UTF-8 (section 3 of RFC 3629) between JavaScript strings and bytes.  Encoding turns a lone surrogate into
    U+FFFD; decoding turns each maximal ill-formed stretch into one U+FFFD. */
module Utf8 {
  import opened Base64Url

  predicate IsHigh(u: CodeUnit) {
    0xD800 <= u <= 0xDBFF
  }

  predicate IsLow(u: CodeUnit) {
    0xDC00 <= u <= 0xDFFF
  }

  const REPLACEMENT: CodeUnit := 0xFFFD

  predicate StartsWithPair(s: JsString) {
    |s| >= 2 && IsHigh(s[0]) && IsLow(s[1])
  }

  /** Code units the next code point takes. */
  function Width(s: JsString): nat
    requires s != []
  {
    if StartsWithPair(s) then 2 else 1
  }

  /** No lone surrogates. */
  predicate WellFormed(s: JsString) {
    s != [] ==> (StartsWithPair(s) || !(IsHigh(s[0]) || IsLow(s[0]))) && WellFormed(s[Width(s)..])
  }

  function EncodeUnit(u: CodeUnit): seq<Byte> {
    if u < 0x80 then [u]
    else if u < 0x800 then [0xC0 + u / 64, 0x80 + u % 64]
    else [0xE0 + u / 4096, 0x80 + u / 64 % 64, 0x80 + u % 64]
  }

  function CodePoint(high: int, low: int): (cp: int)
    requires 0xD800 <= high <= 0xDBFF && 0xDC00 <= low <= 0xDFFF
    ensures 0x1_0000 <= cp < 0x11_0000
  {
    0x1_0000 + (high - 0xD800) * 0x400 + (low - 0xDC00)
  }

  function EncodePair(high: CodeUnit, low: CodeUnit): seq<Byte>
    requires IsHigh(high) && IsLow(low)
  {
    var cp := CodePoint(high, low);
    [0xF0 + cp / 0x4_0000, 0x80 + cp / 4096 % 64, 0x80 + cp / 64 % 64, 0x80 + cp % 64]
  }

  function EncodeFirst(s: JsString): seq<Byte>
    requires s != []
  {
    if StartsWithPair(s) then EncodePair(s[0], s[1])
    else if IsHigh(s[0]) || IsLow(s[0]) then EncodeUnit(REPLACEMENT)
    else EncodeUnit(s[0])
  }

  function Encode(s: JsString): seq<Byte> {
    if s == [] then [] else EncodeFirst(s) + Encode(s[Width(s)..])
  }

  /** b[i] exists and lies in the range. */
  predicate InRange(b: seq<Byte>, i: nat, low: int, high: int) {
    i < |b| && low <= b[i] <= high
  }

  function Two(x: int, y: int): CodeUnit
    requires 0xC2 <= x <= 0xDF && 0x80 <= y <= 0xBF
  {
    (x - 0xC0) * 64 + (y - 0x80)
  }

  function Three(x: int, y: int, z: int): CodeUnit
    requires 0xE0 <= x <= 0xEF && 0x80 <= y <= 0xBF && 0x80 <= z <= 0xBF
  {
    (x - 0xE0) * 4096 + (y - 0x80) * 64 + (z - 0x80)
  }

  /** The surrogate pair of a code point above U+FFFF. */
  function Four(x: int, y: int, z: int, t: int): JsString
    requires 0xF0 <= x <= 0xF4 && 0x80 <= y <= 0xBF && 0x80 <= z <= 0xBF && 0x80 <= t <= 0xBF
    requires (x == 0xF0 ==> y >= 0x90) && (x == 0xF4 ==> y <= 0x8F)
  {
    var above := (x - 0xF0) * 0x4_0000 + (y - 0x80) * 4096 + (z - 0x80) * 64 + (t - 0x80) - 0x1_0000;
    [0xD800 + above / 0x400, 0xDC00 + above % 0x400]
  }

  /** The first code point of b, or U+FFFD, and the number of bytes it takes. */
  function DecodeFirst(b: seq<Byte>): (r: (JsString, nat))
    requires b != []
    ensures 1 <= r.1 <= |b|
  {
    if b[0] < 0x80 then ([b[0]], 1)
    else if 0xC2 <= b[0] <= 0xDF then
      if !InRange(b, 1, 0x80, 0xBF) then ([REPLACEMENT], 1)
      else ([Two(b[0], b[1])], 2)
    else if 0xE0 <= b[0] <= 0xEF then
      if !InRange(b, 1, if b[0] == 0xE0 then 0xA0 else 0x80, if b[0] == 0xED then 0x9F else 0xBF) then ([REPLACEMENT], 1)
      else if !InRange(b, 2, 0x80, 0xBF) then ([REPLACEMENT], 2)
      else ([Three(b[0], b[1], b[2])], 3)
    else if 0xF0 <= b[0] <= 0xF4 then
      if !InRange(b, 1, if b[0] == 0xF0 then 0x90 else 0x80, if b[0] == 0xF4 then 0x8F else 0xBF) then ([REPLACEMENT], 1)
      else if !InRange(b, 2, 0x80, 0xBF) then ([REPLACEMENT], 2)
      else if !InRange(b, 3, 0x80, 0xBF) then ([REPLACEMENT], 3)
      else
        (Four(b[0], b[1], b[2], b[3]), 4)
    else ([REPLACEMENT], 1)
  }

  function Decode(b: seq<Byte>): JsString {
    if b == [] then []
    else
      var (units, n) := DecodeFirst(b);
      units + Decode(b[n..])
  }

  lemma UnitInverts(u: CodeUnit, rest: seq<Byte>)
    requires !IsHigh(u) && !IsLow(u)
    ensures DecodeFirst(EncodeUnit(u) + rest) == ([u], |EncodeUnit(u)|)
  {
  }

  lemma FourInverts(high: CodeUnit, low: CodeUnit)
    requires IsHigh(high) && IsLow(low)
    ensures var cp := CodePoint(high, low);
            var x, y, z, t := 0xF0 + cp / 0x4_0000, 0x80 + cp / 4096 % 64, 0x80 + cp / 64 % 64, 0x80 + cp % 64;
            && 0xF0 <= x <= 0xF4 && (x == 0xF0 ==> y >= 0x90) && (x == 0xF4 ==> y <= 0x8F)
            && Four(x, y, z, t) == [high, low]
  {
    var cp := CodePoint(high, low);
    var q := cp / 64;
    var p := q / 64;
    assert cp == q * 64 + cp % 64 && q == p * 64 + q % 64 && p == p / 64 * 64 + p % 64;
    assert cp / 4096 == p && cp / 0x4_0000 == p / 64;
  }

  lemma PairInverts(high: CodeUnit, low: CodeUnit, rest: seq<Byte>)
    requires IsHigh(high) && IsLow(low)
    ensures DecodeFirst(EncodePair(high, low) + rest) == ([high, low], 4)
  {
    hide Four;
    FourInverts(high, low);
    var cp := CodePoint(high, low);
    var b := EncodePair(high, low) + rest;
    assert b[0] == 0xF0 + cp / 0x4_0000 && b[1] == 0x80 + cp / 4096 % 64
        && b[2] == 0x80 + cp / 64 % 64 && b[3] == 0x80 + cp % 64;
  }

  /** UTF-8 loses nothing of a string without lone surrogates. */
  lemma {:induction false} Utf8RoundTrip(s: JsString)
    requires WellFormed(s)
    ensures Decode(Encode(s)) == s
  {
    if s != [] {
      var rest := s[Width(s)..];
      Utf8RoundTrip(rest);
      if StartsWithPair(s) { PairInverts(s[0], s[1], Encode(rest)); } else { UnitInverts(s[0], Encode(rest)); }
      var n := |EncodeFirst(s)|;
      assert (EncodeFirst(s) + Encode(rest))[n..] == Encode(rest);
      assert s == s[..Width(s)] + rest;
    }
  }

  lemma {:induction false} WellFormedConcat(a: JsString, b: JsString)
    requires WellFormed(a) && WellFormed(b)
    ensures WellFormed(a + b)
  {
    if a == [] {
      assert a + b == b;
    } else {
      var n := Width(a);
      WellFormedConcat(a[n..], b);
      assert (a + b)[n..] == a[n..] + b;
    }
  }
}

/** Section 5 of RFC 4648 without padding, as `toString('base64url')` writes it, and the lenient reading of
    `Buffer.from(text, 'base64url')`: both alphabets, other characters skipped, nothing after `=`. */
module Base64Url {
  type CodeUnit = u: int | 0 <= u < 0x1_0000
  type JsString = seq<CodeUnit>
  type Byte = b: int | 0 <= b < 0x100
  type Sextet = v: int | 0 <= v < 64

  datatype Lookup = Skip | Stop | Value(v: Sextet)

  function Symbol(v: Sextet): CodeUnit {
    if v < 26 then 'A' as int + v
    else if v < 52 then 'a' as int + (v - 26)
    else if v < 62 then '0' as int + (v - 52)
    else if v == 62 then '-' as int
    else '_' as int
  }

  predicate UrlSafe(u: CodeUnit) {
    || 'A' as int <= u <= 'Z' as int
    || 'a' as int <= u <= 'z' as int
    || '0' as int <= u <= '9' as int
    || u == '-' as int || u == '_' as int
  }

  function Read(u: CodeUnit): Lookup {
    if 'A' as int <= u <= 'Z' as int then Value(u - 'A' as int)
    else if 'a' as int <= u <= 'z' as int then Value(u - 'a' as int + 26)
    else if '0' as int <= u <= '9' as int then Value(u - '0' as int + 52)
    else if u == '-' as int || u == '+' as int then Value(62)
    else if u == '_' as int || u == '/' as int then Value(63)
    else if u == '=' as int then Stop
    else Skip
  }

  /** Groups of three bytes as four sextets; a tail of one or two bytes as two or three. */
  function ToSextets(bytes: seq<Byte>): seq<Sextet> {
    if |bytes| == 0 then []
    else if |bytes| == 1 then [bytes[0] / 4, bytes[0] % 4 * 16]
    else if |bytes| == 2 then [bytes[0] / 4, bytes[0] % 4 * 16 + bytes[1] / 16, bytes[1] % 16 * 4]
    else
      [bytes[0] / 4, bytes[0] % 4 * 16 + bytes[1] / 16, bytes[1] % 16 * 4 + bytes[2] / 64, bytes[2] % 64]
      + ToSextets(bytes[3..])
  }

  function Join2(a: int, b: int): Byte
    requires 0 <= a < 64 && 0 <= b < 64
  {
    a * 4 + b / 16
  }

  function Join3(b: int, c: int): Byte
    requires 0 <= b < 64 && 0 <= c < 64
  {
    b % 16 * 16 + c / 4
  }

  function Join4(c: int, d: int): Byte
    requires 0 <= c < 64 && 0 <= d < 64
  {
    c % 4 * 64 + d
  }

  function FromSextets(s: seq<Sextet>): seq<Byte> {
    if |s| < 2 then []
    else if |s| == 2 then [Join2(s[0], s[1])]
    else if |s| == 3 then [Join2(s[0], s[1]), Join3(s[1], s[2])]
    else [Join2(s[0], s[1]), Join3(s[1], s[2]), Join4(s[2], s[3])] + FromSextets(s[4..])
  }

  function Encode(bytes: seq<Byte>): JsString {
    var s := ToSextets(bytes);
    seq(|s|, i requires 0 <= i < |s| => Symbol(s[i]))
  }

  function Sextets(text: JsString): seq<Sextet> {
    if text == [] then []
    else match Read(text[0])
      case Value(v) => [v] + Sextets(text[1..])
      case Stop => []
      case Skip => Sextets(text[1..])
  }

  function Decode(text: JsString): seq<Byte> {
    FromSextets(Sextets(text))
  }

  lemma ReadSymbol(v: Sextet)
    ensures Read(Symbol(v)) == Value(v) && UrlSafe(Symbol(v))
  {
  }

  lemma {:induction false} SextetsInvert(bytes: seq<Byte>)
    ensures FromSextets(ToSextets(bytes)) == bytes
  {
    if |bytes| >= 3 {
      SextetsInvert(bytes[3..]);
      assert ToSextets(bytes)[4..] == ToSextets(bytes[3..]);
      assert bytes == [bytes[0], bytes[1], bytes[2]] + bytes[3..];
    }
  }

  lemma {:induction false} SextetsRead(s: seq<Sextet>)
    ensures Sextets(seq(|s|, i requires 0 <= i < |s| => Symbol(s[i]))) == s
  {
    var text: JsString := seq(|s|, i requires 0 <= i < |s| => Symbol(s[i]));
    if s != [] {
      ReadSymbol(s[0]);
      assert text[1..] == seq(|s[1..]|, i requires 0 <= i < |s[1..]| => Symbol(s[1..][i]));
      SextetsRead(s[1..]);
    }
  }

  /** Unpadded base64url inverts on every byte string. */
  lemma Base64RoundTrip(bytes: seq<Byte>)
    ensures Decode(Encode(bytes)) == bytes
  {
    SextetsRead(ToSextets(bytes));
    SextetsInvert(bytes);
  }

  lemma {:induction false} SextetCount(bytes: seq<Byte>)
    ensures |ToSextets(bytes)| == (4 * |bytes| + 2) / 3
  {
    if |bytes| >= 3 { SextetCount(bytes[3..]); }
  }

  /** Only the URL-safe alphabet, no padding, and ceil(4n/3) characters for n bytes. */
  lemma Base64Alphabet(bytes: seq<Byte>)
    ensures forall u :: u in Encode(bytes) ==> UrlSafe(u)
    ensures |Encode(bytes)| == (4 * |bytes| + 2) / 3
  {
    SextetCount(bytes);
  }

  /** The bits left over in the last sextet are zero, so each byte string has one text and no other text of the
      alphabet is ever written for it. */
  lemma {:induction false} SpareBitsZero(bytes: seq<Byte>)
    ensures var s := ToSextets(bytes);
      && (|bytes| % 3 == 1 ==> s != [] && s[|s| - 1] % 16 == 0)
      && (|bytes| % 3 == 2 ==> s != [] && s[|s| - 1] % 4 == 0)
  {
    if |bytes| >= 3 {
      SpareBitsZero(bytes[3..]);
      assert (|bytes| - 3) % 3 == |bytes| % 3;
    }
  }
}

/** `encodeCursor` and `decodeCursor`: ISO date, JSON, UTF-8 and base64url, one inside the other. */
module Cursor {
  import opened Tables
  import opened Base64Url
  import Utf8
  import opened Json
  import opened IsoDate

  datatype Date = Instant(t: TimeValue) | InvalidDate

  /** Either error is what the call throws. */
  datatype Thrown = RangeError | SyntaxError

  /** `JSON.stringify({ id, createdAt })`. */
  function Payload(id: JsString, createdAt: JsString): JsString {
    Ascii("{\"id\":") + Quote(id) + Ascii(",\"createdAt\":") + Quote(createdAt) + Ascii("}")
  }

  function EncodeCursor(id: JsString, createdAt: Date): Result<JsString, Thrown> {
    match createdAt
    case InvalidDate => Err(RangeError)
    case Instant(t) => Ok(Base64Url.Encode(Utf8.Encode(Payload(id, ToISOString(t)))))
  }

  function DecodeCursor(cursor: JsString): Result<Json, Thrown> {
    var parsed := Parse(Utf8.Decode(Base64Url.Decode(cursor)));
    if parsed.Some? then Ok(parsed.value) else Err(SyntaxError)
  }

  function Record(id: JsString, createdAt: JsString): Json {
    Object(map[Ascii("id") := Text(id), Ascii("createdAt") := Text(createdAt)])
  }

  // ---------------------------------------------------------------- proof

  lemma PayloadWellFormed(id: JsString, createdAt: JsString)
    ensures Utf8.WellFormed(Payload(id, createdAt))
  {
    hide Quote;
    var a, b, c := Ascii("{\"id\":"), Ascii(",\"createdAt\":"), Ascii("}");
    PlainWellFormed(a);
    PlainWellFormed(b);
    PlainWellFormed(c);
    QuoteWellFormed(id);
    QuoteWellFormed(createdAt);
    Utf8.WellFormedConcat(a, Quote(id));
    Utf8.WellFormedConcat(a + Quote(id), b);
    Utf8.WellFormedConcat(a + Quote(id) + b, Quote(createdAt));
    Utf8.WellFormedConcat(a + Quote(id) + b + Quote(createdAt), c);
  }

  /** A quoted key, its colon, and a quoted value. */
  function Member(key: string, value: JsString, rest: JsString): JsString
    requires forall i :: 0 <= i < |key| ==> key[i] < 128 as char
  {
    Quote(Ascii(key)) + [':' as int] + (Quote(value) + rest)
  }

  lemma QuotedParses(s: JsString, rest: JsString)
    ensures ParseValue(Quote(s) + rest) == Some((Text(s), rest))
  {
    hide Unquote, QuoteBody;
    QuoteRoundTrip(s, rest);
    assert (Quote(s) + rest)[1..] == QuoteBody(s) + [QUOTE] + rest;
  }

  lemma KeyParses(key: string, value: JsString, rest: JsString)
    requires forall i :: 0 <= i < |key| ==> key[i] < 128 as char
    ensures ParseKey(Member(key, value, rest)) == Some((Ascii(key), Quote(value) + rest))
  {
    hide Unquote, QuoteBody;
    var after := [':' as int] + (Quote(value) + rest);
    QuoteRoundTrip(Ascii(key), after);
    assert Member(key, value, rest)[1..] == QuoteBody(Ascii(key)) + [QUOTE] + after;
    assert after[1..] == Quote(value) + rest;
    assert SkipSpace(after) == after && SkipSpace(Quote(value) + rest) == Quote(value) + rest;
  }

  lemma ItemParses(value: JsString, next: CodeUnit, rest: JsString)
    requires next == '}' as int || next == ',' as int
    ensures ParseThen(Quote(value) + ([next] + rest)) == Some((Text(value), next, rest))
  {
    QuotedParses(value, [next] + rest);
    assert ([next] + rest)[1..] == rest;
  }

  lemma LastMemberParses(key: string, value: JsString, soFar: map<JsString, Json>)
    requires forall i :: 0 <= i < |key| ==> key[i] < 128 as char
    ensures ParseMembers(Member(key, value, ['}' as int] + []), soFar)
         == Some((Object(soFar[Ascii(key) := Text(value)]), []))
  {
    hide Quote, ParseKey, ParseThen, Member;
    KeyParses(key, value, ['}' as int] + []);
    ItemParses(value, '}' as int, []);
  }

  lemma FirstMemberParses(key: string, value: JsString, rest: JsString, soFar: map<JsString, Json>)
    requires forall i :: 0 <= i < |key| ==> key[i] < 128 as char
    requires SkipSpace(rest) == rest
    ensures ParseMembers(Member(key, value, [',' as int] + rest), soFar)
         == ParseMembers(rest, soFar[Ascii(key) := Text(value)])
  {
    hide Quote, ParseKey, ParseThen, Member;
    KeyParses(key, value, [',' as int] + rest);
    ItemParses(value, ',' as int, rest);
  }

  /** Letters need no escapes. */
  lemma {:induction false} QuotePlain(s: JsString)
    requires forall i :: 0 <= i < |s| ==> 'A' as int <= s[i] <= 'z' as int && s[i] != BACKSLASH
    ensures QuoteBody(s) == s
  {
    if s != [] {
      QuotePlain(s[1..]);
      assert s == [s[0]] + s[1..];
    }
  }

  lemma Regroup(a: JsString, k: JsString, c: JsString, v: JsString,
                b: JsString, l: JsString, d: JsString, x: JsString, e: JsString)
    ensures (a + k + c) + v + (b + l + d) + x + e == a + (k + c + (v + (b + (l + d + (x + e)))))
  {
  }

  lemma LiteralsAgree()
    ensures Ascii("{\"id\":") == ['{' as int] + ([QUOTE] + Ascii("id") + [QUOTE]) + [':' as int]
    ensures Ascii(",\"createdAt\":") == [',' as int] + ([QUOTE] + Ascii("createdAt") + [QUOTE]) + [':' as int]
    ensures Ascii("}") == ['}' as int]
  {
  }

  lemma PayloadIsMembers(id: JsString, createdAt: JsString)
    ensures Payload(id, createdAt)
         == ['{' as int] + Member("id", id, [',' as int] + Member("createdAt", createdAt, ['}' as int] + []))
  {
    QuotePlain(Ascii("id"));
    QuotePlain(Ascii("createdAt"));
    LiteralsAgree();
    hide QuoteBody, Ascii;
    Regroup(['{' as int], Quote(Ascii("id")), [':' as int], Quote(id),
            [',' as int], Quote(Ascii("createdAt")), [':' as int], Quote(createdAt), ['}' as int]);
    assert ['}' as int] + [] == ['}' as int];
  }

  lemma MemberStartsQuoted(key: string, value: JsString, rest: JsString)
    requires forall i :: 0 <= i < |key| ==> key[i] < 128 as char
    ensures Member(key, value, rest) != [] && Member(key, value, rest)[0] == QUOTE
    ensures SkipSpace(Member(key, value, rest)) == Member(key, value, rest)
  {
  }

  lemma PayloadParses(id: JsString, createdAt: JsString)
    ensures Parse(Payload(id, createdAt)) == Some(Record(id, createdAt))
  {
    hide Quote, ParseMembers;
    var second := Member("createdAt", createdAt, ['}' as int] + []);
    var first := Member("id", id, [',' as int] + second);
    MemberStartsQuoted("createdAt", createdAt, ['}' as int] + []);
    MemberStartsQuoted("id", id, [',' as int] + second);
    PayloadIsMembers(id, createdAt);
    FirstMemberParses("id", id, second, map[]);
    LastMemberParses("createdAt", createdAt, map[Ascii("id") := Text(id)]);
    var text := Payload(id, createdAt);
    assert text[1..] == first;
  }

  // ---------------------------------------------------------------- the theorems

  /** For every id, quotes, control characters and lone surrogates included, and every valid Date, decoding
      gives back the id and the Date's ISO string, and that string is the Date. */
  lemma CursorRoundTrip(id: JsString, t: TimeValue)
    ensures EncodeCursor(id, Instant(t)).Ok?
    ensures DecodeCursor(EncodeCursor(id, Instant(t)).value) == Ok(Record(id, ToISOString(t)))
    ensures ReadISO(ToISOString(t)) == Some(t)
  {
    hide Payload, ToISOString;
    var payload := Payload(id, ToISOString(t));
    PayloadWellFormed(id, ToISOString(t));
    Utf8.Utf8RoundTrip(payload);
    Base64RoundTrip(Utf8.Encode(payload));
    PayloadParses(id, ToISOString(t));
    ISORoundTrip(t);
  }

  /** Two cursors are equal exactly when they are for the same id and the same instant. */
  lemma CursorInjective(id: JsString, t: TimeValue, id': JsString, t': TimeValue)
    ensures EncodeCursor(id, Instant(t)) == EncodeCursor(id', Instant(t')) <==> id == id' && t == t'
  {
    hide ToISOString, EncodeCursor, DecodeCursor;
    if EncodeCursor(id, Instant(t)) == EncodeCursor(id', Instant(t')) {
      CursorRoundTrip(id, t);
      CursorRoundTrip(id', t');
      var a, b := Record(id, ToISOString(t)).members, Record(id', ToISOString(t')).members;
      assert Ascii("id") != Ascii("createdAt") by { assert |Ascii("id")| != |Ascii("createdAt")|; }
      assert a[Ascii("id")] == b[Ascii("id")] && a[Ascii("createdAt")] == b[Ascii("createdAt")];
    }
  }

  /** A cursor is made of the unpadded URL-safe alphabet, and there is one unless the Date is invalid. */
  lemma CursorAlphabet(id: JsString, d: Date)
    ensures EncodeCursor(id, d).Err? <==> d.InvalidDate?
    ensures EncodeCursor(id, d).Ok? ==> forall u :: u in EncodeCursor(id, d).value ==> UrlSafe(u)
  {
    if d.Instant? { Base64Alphabet(Utf8.Encode(Payload(id, ToISOString(d.t)))); }
  }

  const OPENING: JsString := Ascii("{\"id\":\"")
  const BETWEEN: JsString := Ascii("\",\"createdAt\":\"")
  const CLOSING: JsString := Ascii("\"}")

  lemma OpeningQuoted()
    ensures OPENING == Ascii("{\"id\":") + [QUOTE]
  {
  }

  lemma BetweenQuoted()
    ensures BETWEEN == [QUOTE] + Ascii(",\"createdAt\":") + [QUOTE]
  {
  }

  lemma ClosingQuoted()
    ensures CLOSING == [QUOTE] + Ascii("}")
  {
  }

  lemma Shift(a: JsString, b: JsString, c: JsString, q: JsString, x: JsString, y: JsString)
    ensures a + (q + x + q) + b + (q + y + q) + c == (a + q) + x + (q + b + q) + y + (q + c)
  {
  }

  lemma ISOIsPlain(t: TimeValue)
    ensures QuoteBody(ToISOString(t)) == ToISOString(t)
  {
    hide ToISOString, QuoteBody;
    ISOUnits(t);
    PlainWellFormed(ToISOString(t));
    QuoteKeepsIffPlain(ToISOString(t));
  }

  /** For an id that JSON leaves as it is, a uuid say, the text inside the cursor is, character by character,
      {"id":"<id>","createdAt":"<ISO string>"}. */
  lemma CursorText(id: JsString, t: TimeValue)
    requires Utf8.WellFormed(id) && forall i :: 0 <= i < |id| ==> id[i] >= 0x20 && id[i] != 0x22 && id[i] != 0x5C
    ensures EncodeCursor(id, Instant(t)).Ok?
    ensures Utf8.Decode(Base64Url.Decode(EncodeCursor(id, Instant(t)).value))
         == OPENING + id + BETWEEN + ToISOString(t) + CLOSING
  {
    hide ToISOString, QuoteBody, Ascii, Utf8.Encode, Utf8.Decode, Base64Url.Encode, Base64Url.Decode, Utf8.WellFormed;
    var payload := Payload(id, ToISOString(t));
    PayloadWellFormed(id, ToISOString(t));
    Utf8.Utf8RoundTrip(payload);
    Base64RoundTrip(Utf8.Encode(payload));
    QuoteKeepsIffPlain(id);
    ISOIsPlain(t);
    OpeningQuoted();
    BetweenQuoted();
    ClosingQuoted();
    Shift(Ascii("{\"id\":"), Ascii(",\"createdAt\":"), Ascii("}"), [QUOTE], id, ToISOString(t));
  }
}

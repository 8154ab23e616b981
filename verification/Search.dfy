/** `title ILIKE '%search%'`: pattern matching of section 8.5 of ISO/IEC 9075-2 after folding case. */
module Search {
  import opened Tables
  import Paging
  import Double

  /** The escape character takes the next one literally; at the end of a pattern it matches nothing. */
  predicate Like(p: string, t: string)
    decreases |p|, |t|
  {
    if p == "" then t == ""
    else if p[0] == '%' then Like(p[1..], t) || (t != "" && Like(p, t[1..]))
    else if p[0] == '_' then t != "" && Like(p[1..], t[1..])
    else if p[0] == '\\' then |p| > 1 && t != "" && t[0] == p[1] && Like(p[2..], t[1..])
    else t != "" && t[0] == p[0] && Like(p[1..], t[1..])
  }

  predicate Special(c: char) {
    c == '%' || c == '_' || c == '\\'
  }

  predicate Plain(s: string) {
    forall i :: 0 <= i < |s| ==> !Special(s[i])
  }

  /** Lower-casing of one character: doing it twice is doing it once, and it neither makes nor loses a
      pattern character. */
  ghost predicate Folding(fold: char -> char) {
    forall c :: fold(fold(c)) == fold(c) && if Special(c) then fold(c) == c else !Special(fold(c))
  }

  function Fold(fold: char -> char, s: string): string {
    seq(|s|, i requires 0 <= i < |s| => fold(s[i]))
  }

  function Pattern(search: string): string {
    "%" + search + "%"
  }

  predicate ILike(fold: char -> char, pattern: string, title: string) {
    Like(Fold(fold, pattern), Fold(fold, title))
  }

  predicate ContainsAt(title: string, s: string, k: int) {
    0 <= k && k + |s| <= |title| && title[k..k + |s|] == s
  }

  /** From position k on the title reads as `s`, letter by letter up to case. */
  predicate ReadsAt(fold: char -> char, title: string, s: string, k: int) {
    0 <= k && k + |s| <= |title| && forall j | 0 <= j < |s| :: fold(title[k + j]) == fold(s[j])
  }

  /** `s` occurs in `title` up to case. */
  ghost predicate Contains(fold: char -> char, title: string, s: string) {
    exists k :: ReadsAt(fold, title, s, k)
  }

  lemma FoldedReads(fold: char -> char, title: string, s: string, k: int)
    ensures ContainsAt(Fold(fold, title), Fold(fold, s), k) <==> ReadsAt(fold, title, s, k)
  {
    var t, u := Fold(fold, title), Fold(fold, s);
    if ReadsAt(fold, title, s, k) {
      assert t[k..k + |u|] == u;
    }
    if ContainsAt(t, u, k) {
      forall j | 0 <= j < |s| ensures fold(title[k + j]) == fold(s[j]) {
        assert t[k..k + |u|][j] == u[j];
      }
    }
  }

  lemma FoldedContains(fold: char -> char, title: string, s: string)
    ensures (exists k :: ContainsAt(Fold(fold, title), Fold(fold, s), k)) <==> Contains(fold, title, s)
  {
    hide ContainsAt, ReadsAt;
    forall k ensures ContainsAt(Fold(fold, title), Fold(fold, s), k) <==> ReadsAt(fold, title, s, k) {
      FoldedReads(fold, title, s, k);
    }
  }

  // ---------------------------------------------------------------- a plain search

  /** `%` skips any prefix. */
  lemma {:induction false} PercentSkips(p: string, t: string)
    ensures Like("%" + p, t) <==> exists k :: 0 <= k <= |t| && Like(p, t[k..])
    decreases |t|
  {
    assert ("%" + p)[1..] == p;
    assert t[0..] == t;
    if t != "" {
      PercentSkips(p, t[1..]);
      if Like("%" + p, t[1..]) {
        var k :| 0 <= k <= |t[1..]| && Like(p, t[1..][k..]);
        assert t[1..][k..] == t[k + 1..];
      }
      forall k | 1 <= k <= |t| && Like(p, t[k..]) ensures Like("%" + p, t[1..]) {
        assert t[1..][k - 1..] == t[k..];
      }
    }
  }

  lemma PercentMatchesAll(t: string)
    ensures Like("%", t)
  {
  }

  /** Ordinary characters match themselves. */
  lemma {:induction false} PlainMatches(s: string, t: string)
    requires Plain(s)
    ensures Like(s + "%", t) <==> s <= t
    decreases |s|
  {
    if s == "" {
      assert s + "%" == "%";
      PercentMatchesAll(t);
    } else if t != "" {
      assert (s + "%")[1..] == s[1..] + "%";
      PlainMatches(s[1..], t[1..]);
      assert s <= t <==> s[0] == t[0] && s[1..] <= t[1..] by {
        if s[0] == t[0] && s[1..] <= t[1..] { assert s == [s[0]] + s[1..] && t == [t[0]] + t[1..]; }
      }
    }
  }

  lemma PlainPattern(s: string, t: string)
    requires Plain(s)
    ensures Like("%" + s + "%", t) <==> exists k :: ContainsAt(t, s, k)
  {
    PercentSkips(s + "%", t);
    assert "%" + s + "%" == "%" + (s + "%");
    forall k | 0 <= k <= |t| ensures Like(s + "%", t[k..]) <==> ContainsAt(t, s, k) {
      PlainMatches(s, t[k..]);
      if s <= t[k..] { assert t[k..k + |s|] == t[k..][..|s|]; }
      if ContainsAt(t, s, k) { assert t[k..][..|s|] == t[k..k + |s|]; }
    }
  }

  lemma FoldPattern(fold: char -> char, search: string)
    requires Folding(fold)
    ensures Fold(fold, Pattern(search)) == "%" + Fold(fold, search) + "%"
    ensures Plain(Fold(fold, search)) <==> Plain(search)
  {
    assert Special('%') && fold('%') == '%';
    assert Plain(Fold(fold, search)) ==> Plain(search) by {
      forall i | 0 <= i < |search| && Special(search[i]) ensures Special(Fold(fold, search)[i]) {
      }
    }
  }

  // ---------------------------------------------------------------- any other search

  /** A title that the search, read as a pattern, matches: escapes undone, `%` empty, `_` some other character. */
  function Reading(s: string): string {
    if s == "" then ""
    else if s[0] == '%' then Reading(s[1..])
    else if s[0] == '_' then "%" + Reading(s[1..])
    else if s[0] == '\\' then (if |s| > 1 then [s[1]] + Reading(s[2..]) else "%")
    else [s[0]] + Reading(s[1..])
  }

  lemma {:induction false} ReadingMatches(s: string)
    ensures Like(s + "%", Reading(s))
    decreases |s|
  {
    if s == "" {
      assert s + "%" == "%";
      PercentMatchesAll("");
    } else if s[0] == '%' {
      ReadingMatches(s[1..]);
      assert (s + "%")[1..] == s[1..] + "%";
    } else if s[0] == '\\' && |s| > 1 {
      ReadingMatches(s[2..]);
      assert (s + "%")[2..] == s[2..] + "%";
      assert Reading(s)[1..] == Reading(s[2..]);
    } else if s[0] == '\\' {
      assert (s + "%")[2..] == "" && Reading(s)[1..] == "";
    } else {
      ReadingMatches(s[1..]);
      assert (s + "%")[1..] == s[1..] + "%";
      assert Reading(s)[1..] == Reading(s[1..]);
    }
  }

  /** That title is shorter than the search, or as long and different. */
  lemma {:induction false} ReadingDiffers(s: string)
    ensures |Reading(s)| <= |s|
    ensures !Plain(s) ==> Reading(s) != s
    decreases |s|
  {
    if s != "" {
      if s[0] == '\\' && |s| > 1 {
        ReadingDiffers(s[2..]);
      } else {
        ReadingDiffers(s[1..]);
        if !Special(s[0]) && Reading(s) == s {
          assert Reading(s)[1..] == s[1..];
          assert Plain(s[1..]);
          assert forall i :: 1 <= i < |s| ==> s[i] == s[1..][i - 1];
        }
      }
    }
  }

  lemma ContainedWhole(t: string, s: string, k: int)
    requires ContainsAt(t, s, k) && |t| <= |s|
    ensures t == s
  {
  }

  lemma SpecialPattern(s: string)
    requires !Plain(s)
    ensures Like("%" + s + "%", Reading(s)) && !exists k :: ContainsAt(Reading(s), s, k)
  {
    ReadingMatches(s);
    ReadingDiffers(s);
    PercentSkips(s + "%", Reading(s));
    assert "%" + s + "%" == "%" + (s + "%") && Reading(s)[0..] == Reading(s);
    forall k | ContainsAt(Reading(s), s, k) ensures false {
      ContainedWhole(Reading(s), s, k);
    }
  }

  lemma FoldTwice(fold: char -> char, s: string)
    requires Folding(fold)
    ensures Fold(fold, Fold(fold, s)) == Fold(fold, s)
  {
  }

  lemma {:induction false} ReadingFolded(fold: char -> char, s: string)
    requires Folding(fold) && Fold(fold, s) == s
    ensures Fold(fold, Reading(s)) == Reading(s)
    decreases |s|
  {
    assert forall i :: 0 <= i < |s| ==> fold(s[i]) == s[i] by {
      assert forall i :: 0 <= i < |s| ==> Fold(fold, s)[i] == s[i];
    }
    assert Special('%') && fold('%') == '%';
    if s != "" {
      if s[0] == '\\' && |s| > 1 {
        assert Fold(fold, s[2..]) == s[2..];
        ReadingFolded(fold, s[2..]);
      } else {
        assert Fold(fold, s[1..]) == s[1..];
        ReadingFolded(fold, s[1..]);
      }
    }
  }

  // ---------------------------------------------------------------- the theorems

  /** A search without pattern characters finds exactly the titles that contain it, up to case. */
  lemma PlainSearchExact(fold: char -> char, search: string, title: string)
    requires Folding(fold) && Plain(search)
    ensures ILike(fold, Pattern(search), title) <==> Contains(fold, title, search)
  {
    FoldPattern(fold, search);
    PlainPattern(Fold(fold, search), Fold(fold, title));
    FoldedContains(fold, title, search);
  }

  /** And only such a search does: the filter means "contains, up to case" for every title if and only if the
      search has none of the three pattern characters. */
  lemma SearchExactIffPlain(fold: char -> char, search: string)
    requires Folding(fold)
    ensures (forall title :: ILike(fold, Pattern(search), title) <==> Contains(fold, title, search)) <==> Plain(search)
  {
    if Plain(search) {
      forall title ensures ILike(fold, Pattern(search), title) <==> Contains(fold, title, search) {
        PlainSearchExact(fold, search, title);
      }
    } else {
      var s := Fold(fold, search);
      FoldPattern(fold, search);
      FoldTwice(fold, search);
      ReadingFolded(fold, s);
      SpecialPattern(s);
      FoldedContains(fold, Reading(s), search);
      assert ILike(fold, Pattern(search), Reading(s)) && !Contains(fold, Reading(s), search);
    }
  }

  // ---------------------------------------------------------------- the product list

  /** The rows the query keeps.  No search and an empty one both leave the filter out. */
  function Found(fold: char -> char, listing: seq<Product>, search: Option<string>): seq<Product> {
    if listing == [] then []
    else
      (if search.None? || search.value == "" || ILike(fold, Pattern(search.value), listing[0].title)
       then [listing[0]] else [])
      + Found(fold, listing[1..], search)
  }

  /** `listing` is the products table in one fixed order. */
  ghost predicate Lists(listing: seq<Product>, table: map<string, Product>) {
    && (forall i, j :: 0 <= i < j < |listing| ==> listing[i] != listing[j])
    && (forall p :: p in listing <==> p in table.Values)
  }

  lemma {:induction false} FoundIsSublist(fold: char -> char, listing: seq<Product>, search: Option<string>)
    requires forall i, j :: 0 <= i < j < |listing| ==> listing[i] != listing[j]
    ensures var rows := Found(fold, listing, search);
      && (forall p :: p in rows ==> p in listing)
      && Paging.NoRepeats(rows)
  {
    hide ILike;
    if listing != [] {
      FoundIsSublist(fold, listing[1..], search);
      assert forall p :: p in listing <==> p == listing[0] || p in listing[1..];
      assert forall p :: p in Found(fold, listing[1..], search) ==> p in listing[1..];
      assert listing[0] !in listing[1..];
    }
  }

  lemma {:induction false} FoundExact(fold: char -> char, listing: seq<Product>, search: Option<string>)
    requires Folding(fold) && (search.Some? ==> Plain(search.value))
    ensures forall p :: p in Found(fold, listing, search) <==>
              p in listing && (search.Some? ==> Contains(fold, p.title, search.value))
  {
    if listing != [] {
      FoundExact(fold, listing[1..], search);
      assert forall p :: p in listing <==> p == listing[0] || p in listing[1..];
      if search.Some? {
        PlainSearchExact(fold, search.value, listing[0].title);
        if search.value == "" {
          assert ReadsAt(fold, listing[0].title, "", 0);
        }
      }
    }
  }

  /** A page of the search shows rows of the table and no others. */
  lemma SearchedPage(fold: char -> char, listing: seq<Product>, table: map<string, Product>, search: Option<string>,
                     offset: nat, limit: nat)
    requires Lists(listing, table)
    ensures forall p :: p in Paging.Window(Found(fold, listing, search), offset, limit) ==> p in table.Values
  {
    FoundIsSublist(fold, listing, search);
    Paging.WindowWithin(Found(fold, listing, search), offset, limit);
  }

  /** The rows kept are the table's rows that the filter lets through, all of them when there is no search or an
      empty one. */
  lemma {:induction false} FoundIsFilter(fold: char -> char, listing: seq<Product>, search: Option<string>)
    ensures forall p :: p in Found(fold, listing, search) <==>
              p in listing
              && (search.None? || search.value == "" || ILike(fold, "%" + search.value + "%", p.title))
  {
    hide ILike;
    if listing != [] {
      FoundIsFilter(fold, listing[1..], search);
      assert forall p :: p in listing <==> p == listing[0] || p in listing[1..];
    }
  }

  /** The total a product page reports is the number of stored products that the filter lets through. */
  lemma TotalExact(fold: char -> char, listing: seq<Product>, table: map<string, Product>, search: Option<string>)
    requires Lists(listing, table)
    ensures |Found(fold, listing, search)|
         == |set p | p in table.Values
                     && (search.None? || search.value == "" || ILike(fold, "%" + search.value + "%", p.title))|
  {
    hide ILike, Paging.NoRepeats;
    FoundIsSublist(fold, listing, search);
    FoundIsFilter(fold, listing, search);
    var rows := Found(fold, listing, search);
    var kept := set p | p in table.Values
                        && (search.None? || search.value == "" || ILike(fold, "%" + search.value + "%", p.title));
    forall p ensures p in rows <==> p in kept {
    }
    Paging.DistinctCount(rows);
    assert (set p | p in rows) == kept;
  }

  /** A client that follows `nextPage` through a plain search sees every product whose title contains it, no
      other, and none twice. */
  lemma SearchWalk(fold: char -> char, listing: seq<Product>, table: map<string, Product>, search: Option<string>,
                   limit: int)
    requires Folding(fold) && (search.Some? ==> Plain(search.value)) && limit >= 1
    requires Lists(listing, table) && |Found(fold, listing, search)| < Double.LIMIT
    ensures var rows := Found(fold, listing, search);
            var walk := Paging.Walk(rows, 1, limit);
            var seen := Paging.Joined(walk);
      && (forall p :: p in seen <==> p in table.Values && (search.Some? ==> Contains(fold, p.title, search.value)))
      && (forall i, j :: 0 <= i < j < |seen| ==> seen[i] != seen[j])
      && (forall k | 0 <= k < |walk| :: Paging.ProductPage(rows, k + 1, limit) == Some(walk[k]))
  {
    hide Paging.ListPage, Paging.ProductPage;
    var rows := Found(fold, listing, search);
    FoundExact(fold, listing, search);
    FoundIsSublist(fold, listing, search);
    Paging.WalkShowsAll(rows, limit);
    Paging.WalkFrom(rows, 1, limit);
    forall k | 0 <= k < |Paging.Walk(rows, 1, limit)|
      ensures Paging.ProductPage(rows, k + 1, limit) == Some(Paging.Walk(rows, 1, limit)[k])
    {
      Paging.PagersAgree(rows, k + 1, limit);
    }
  }
}

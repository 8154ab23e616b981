/** The two offset pagers.  `rows` is the filtered table in the order the query lists it. */
module Paging {
  import opened Tables
  import Double

  datatype Meta = Meta(
    page: int, limit: int, totalPages: int, prevPage: Option<int>, nextPage: Option<int>, total: int)

  datatype Paginated<T> = Paginated(data: seq<T>, meta: Meta)

  function Max(a: int, b: int): int {
    if a < b then b else a
  }

  function Min(a: int, b: int): int {
    if a < b then a else b
  }

  /** LIMIT and OFFSET. */
  function Window<T>(rows: seq<T>, offset: nat, limit: nat): seq<T> {
    if offset >= |rows| then [] else rows[offset..Min(offset + limit, |rows|)]
  }

  function MetaOf(total: nat, page: int, limit: int): Meta
    requires total < Double.LIMIT && 1 <= limit <= 200
  {
    var totalPages := Double.Ceil(Double.Divide(total, limit));
    Meta(page, limit, totalPages, if page > 1 then Some(page - 1) else None,
         if page < totalPages then Some(page + 1) else None, total)
  }

  /** Lines 28 to 65 of the changelog service. */
  function ListPage<T>(rows: seq<T>, page: int, limit: int): Paginated<T>
    requires |rows| < Double.LIMIT
  {
    var p, l := Max(1, page), Min(200, Max(1, limit));
    Paginated(Window(rows, (p - 1) * l, l), MetaOf(|rows|, p, l))
  }

  /** The product pager: the offset is taken before the page is clamped, and PostgreSQL refuses a negative one. */
  function ProductPage<T>(rows: seq<T>, page: int, limit: int): Option<Paginated<T>>
    requires |rows| < Double.LIMIT && limit >= 1
  {
    var l := Min(limit, 200);
    var offset := (page - 1) * l;
    if offset < 0 then None else Some(Paginated(Window(rows, offset, l), MetaOf(|rows|, Max(page, 1), l)))
  }

  function Pages(total: nat, limit: int): nat {
    Double.CeilDiv(total, Min(200, Max(1, limit)))
  }

  lemma NegativeOffset(page: int, limit: int)
    requires limit >= 1
    ensures (page - 1) * limit < 0 <==> page < 1
  {
  }

  /** The product pager is the changelog pager exactly for pages from 1 on. */
  lemma PagersAgree<T>(rows: seq<T>, page: int, limit: int)
    requires |rows| < Double.LIMIT && limit >= 1
    ensures ProductPage(rows, page, limit) == Some(ListPage(rows, page, limit)) <==> page >= 1
  {
    NegativeOffset(page, Min(limit, 200));
  }

  // ---------------------------------------------------------------- following the links

  /** The pages a client sees from `page` on, following `nextPage` until there is none. */
  function Walk<T>(rows: seq<T>, page: int, limit: int): seq<Paginated<T>>
    requires |rows| < Double.LIMIT
    decreases Double.Ceil(Double.Divide(|rows|, Min(200, Max(1, limit)))) - page, if page < 1 then 1 else 0
  {
    var here := ListPage(rows, page, limit);
    if here.meta.nextPage.None? then [here] else [here] + Walk(rows, here.meta.nextPage.value, limit)
  }

  /** Following `prevPage` instead. */
  function WalkBack<T>(rows: seq<T>, page: int, limit: int): seq<Paginated<T>>
    requires |rows| < Double.LIMIT
    decreases page
  {
    var here := ListPage(rows, page, limit);
    if here.meta.prevPage.None? then [here] else [here] + WalkBack(rows, here.meta.prevPage.value, limit)
  }

  function Joined<T>(pages: seq<Paginated<T>>): seq<T> {
    if pages == [] then [] else pages[0].data + Joined(pages[1..])
  }

  lemma CeilBounds(total: nat, limit: nat)
    requires limit >= 1
    ensures total <= Double.CeilDiv(total, limit) * limit < total + limit
  {
  }

  lemma PagesMeans(total: nat, limit: nat, page: nat)
    requires limit >= 1
    ensures page < Double.CeilDiv(total, limit) <==> page * limit < total
  {
    hide Double.CeilDiv;
    var n := Double.CeilDiv(total, limit);
    CeilBounds(total, limit);
    if page < n {
      Double.MulMono(limit, page + 1, n);
      Double.Commute(limit, page + 1);
      Double.Commute(limit, n);
      assert (page + 1) * limit == page * limit + limit;
    } else {
      Double.MulMono(limit, n, page);
      Double.Commute(limit, page);
      Double.Commute(limit, n);
    }
  }

  lemma MetaLinks(total: nat, page: int, limit: int)
    requires total < Double.LIMIT && 1 <= limit <= 200
    ensures var m := MetaOf(total, page, limit);
      && m.nextPage == (if page < Double.CeilDiv(total, limit) then Some(page + 1) else None)
      && m.prevPage == (if page > 1 then Some(page - 1) else None)
      && m.totalPages == Double.CeilDiv(total, limit)
  {
    Double.PageCountExact(total, limit);
  }

  /** One page: where its window lies, and whether another follows. */
  lemma PageAt<T>(rows: seq<T>, page: nat, limit: int)
    requires |rows| < Double.LIMIT && 1 <= page <= Max(1, Pages(|rows|, limit))
    ensures var l := Min(200, Max(1, limit));
            var here := ListPage(rows, page, limit);
      && 0 <= (page - 1) * l <= |rows| && page * l == (page - 1) * l + l
      && here.data == rows[(page - 1) * l..Min(page * l, |rows|)]
      && here.meta.nextPage == (if page * l < |rows| then Some(page + 1) else None)
      && (page < Pages(|rows|, limit) <==> page * l < |rows|)
  {
    hide MetaOf, Double.CeilDiv;
    var l := Min(200, Max(1, limit));
    MetaLinks(|rows|, page, l);
    PagesMeans(|rows|, l, page);
    if page > 1 { PagesMeans(|rows|, l, page - 1); }
  }

  lemma {:induction false} WalkFrom<T>(rows: seq<T>, page: nat, limit: int)
    requires |rows| < Double.LIMIT && 1 <= page <= Max(1, Pages(|rows|, limit))
    ensures var l := Min(200, Max(1, limit));
      && 0 <= (page - 1) * l <= |rows|
      && Joined(Walk(rows, page, limit)) == rows[(page - 1) * l..]
      && |Walk(rows, page, limit)| == Max(1, Pages(|rows|, limit)) - page + 1
      && (forall k | 0 <= k < |Walk(rows, page, limit)| :: Walk(rows, page, limit)[k] == ListPage(rows, page + k, limit))
    decreases Pages(|rows|, limit) - page
  {
    hide ListPage, Pages;
    PageAt(rows, page, limit);
    var here := ListPage(rows, page, limit);
    if here.meta.nextPage.Some? {
      WalkFrom(rows, page + 1, limit);
      assert Walk(rows, page, limit)[1..] == Walk(rows, page + 1, limit);
    } else {
      assert Walk(rows, page, limit) == [here];
      assert Joined([here]) == here.data + Joined([]);
    }
  }

  /** A page shows rows of the list and no others. */
  lemma WindowWithin<T>(rows: seq<T>, offset: nat, limit: nat)
    ensures forall x :: x in Window(rows, offset, limit) ==> x in rows
  {
  }

  /** Following `nextPage` from page 1, for any limit asked for, ends after max(1, totalPages) fetches and has
      then shown the whole list, each row once and in order. */
  lemma WalkShowsAll<T>(rows: seq<T>, limit: int)
    requires |rows| < Double.LIMIT
    ensures Joined(Walk(rows, 1, limit)) == rows
    ensures |Walk(rows, 1, limit)| == Max(1, ListPage(rows, 1, limit).meta.totalPages)
  {
    WalkFrom(rows, 1, limit);
    MetaLinks(|rows|, 1, Min(200, Max(1, limit)));
  }

  lemma {:induction false} BackFrom<T>(rows: seq<T>, page: nat, limit: int)
    requires |rows| < Double.LIMIT && page >= 1
    ensures |WalkBack(rows, page, limit)| == page
    ensures forall k | 0 <= k < page :: WalkBack(rows, page, limit)[k] == ListPage(rows, page - k, limit)
  {
    hide MetaOf;
    MetaLinks(|rows|, page, Min(200, Max(1, limit)));
    if page > 1 { BackFrom(rows, page - 1, limit); }
  }

  /** Following `prevPage` from the last page of the walk gives the walk's pages, last to first. */
  lemma BackRetraces<T>(rows: seq<T>, limit: int)
    requires |rows| < Double.LIMIT
    ensures var walk := Walk(rows, 1, limit);
            var back := WalkBack(rows, |walk|, limit);
      |back| == |walk| && forall k | 0 <= k < |walk| :: back[k] == walk[|walk| - 1 - k]
  {
    hide MetaOf, ListPage, Walk, WalkBack, Joined, Pages;
    WalkFrom(rows, 1, limit);
    BackFrom(rows, |Walk(rows, 1, limit)|, limit);
  }

  // ---------------------------------------------------------------- one page, written out

  lemma WindowExact<T>(rows: seq<T>, offset: nat, limit: nat)
    ensures var data := Window(rows, offset, limit);
      && |data| == (if offset >= |rows| then 0 else if offset + limit <= |rows| then limit else |rows| - offset)
      && forall k | 0 <= k < |data| :: offset + k < |rows| && data[k] == rows[offset + k]
  {
  }

  lemma OneLess(n: int, l: int)
    ensures (n - 1) * l == n * l - l
  {
  }

  /** The page count is the one number of pages of that size that the rows fill, the last perhaps in part. */
  lemma PageCount<T>(rows: seq<T>, page: int, limit: int)
    requires |rows| < Double.LIMIT
    ensures var n := ListPage(rows, page, limit).meta.totalPages;
            var l := if limit < 1 then 1 else if limit > 200 then 200 else limit;
            (n - 1) * l < |rows| <= n * l
  {
    hide Window, Double.CeilDiv, Double.Ceil, Double.Divide;
    var l := if limit < 1 then 1 else if limit > 200 then 200 else limit;
    MetaLinks(|rows|, if page < 1 then 1 else page, l);
    CeilBounds(|rows|, l);
    OneLess(Double.CeilDiv(|rows|, l), l);
  }

  /** Any page and limit asked for: what the answer says of itself, and which rows it holds. */
  lemma PageExact<T>(rows: seq<T>, page: int, limit: int)
    requires |rows| < Double.LIMIT
    ensures var here := ListPage(rows, page, limit);
            var p := if page < 1 then 1 else page;
            var l := if limit < 1 then 1 else if limit > 200 then 200 else limit;
            var offset := (p - 1) * l;
      && here.meta.page == p && here.meta.limit == l && here.meta.total == |rows|
      && here.meta.prevPage == (if p > 1 then Some(p - 1) else None)
      && here.meta.nextPage == (if p < here.meta.totalPages then Some(p + 1) else None)
      && offset >= 0
      && |here.data| == (if offset >= |rows| then 0 else if offset + l <= |rows| then l else |rows| - offset)
      && forall k | 0 <= k < |here.data| :: offset + k < |rows| && here.data[k] == rows[offset + k]
  {
    hide Window, Double.CeilDiv, Double.Ceil, Double.Divide;
    var p := if page < 1 then 1 else page;
    var l := if limit < 1 then 1 else if limit > 200 then 200 else limit;
    NegativeOffset(p, l);
    MetaLinks(|rows|, p, l);
    WindowExact(rows, (p - 1) * l, l);
  }

  /** The product pager answers for pages from 1 on, and then the same holds of its answer. */
  lemma ProductPageExact<T>(rows: seq<T>, page: int, limit: int)
    requires |rows| < Double.LIMIT && limit >= 1
    ensures ProductPage(rows, page, limit).Some? <==> page >= 1
    ensures page >= 1 ==>
      var here := ProductPage(rows, page, limit).value;
      var l := if limit > 200 then 200 else limit;
      var offset := (page - 1) * l;
      && here.meta.page == page && here.meta.limit == l && here.meta.total == |rows|
      && here.meta.totalPages == ListPage(rows, page, limit).meta.totalPages
      && here.meta.prevPage == (if page > 1 then Some(page - 1) else None)
      && here.meta.nextPage == (if page < here.meta.totalPages then Some(page + 1) else None)
      && offset >= 0
      && |here.data| == (if offset >= |rows| then 0 else if offset + l <= |rows| then l else |rows| - offset)
      && forall k | 0 <= k < |here.data| :: offset + k < |rows| && here.data[k] == rows[offset + k]
  {
    hide ListPage, Window, MetaOf;
    NegativeOffset(page, Min(limit, 200));
    PagersAgree(rows, page, limit);
    PageExact(rows, page, limit);
  }

  // ---------------------------------------------------------------- changelogs of a product

  /** `listing` is the changelog table in one fixed order that extends `createdAt DESC`. */
  ghost predicate Lists(listing: seq<Changelog>, table: map<string, Changelog>) {
    && (forall i, j :: 0 <= i < j < |listing| ==> listing[i].createdAt >= listing[j].createdAt && listing[i] != listing[j])
    && (forall c :: c in listing <==> c in table.Values)
  }

  function OfProduct(listing: seq<Changelog>, productId: string): seq<Changelog> {
    if listing == [] then []
    else (if listing[0].productId == productId then [listing[0]] else []) + OfProduct(listing[1..], productId)
  }

  lemma {:induction false} OfProductExact(listing: seq<Changelog>, productId: string)
    requires forall i, j :: 0 <= i < j < |listing| ==> listing[i].createdAt >= listing[j].createdAt && listing[i] != listing[j]
    ensures var rows := OfProduct(listing, productId);
      && (forall c :: c in rows <==> c in listing && c.productId == productId)
      && (forall i, j :: 0 <= i < j < |rows| ==> rows[i].createdAt >= rows[j].createdAt && rows[i] != rows[j])
  {
    if listing != [] {
      OfProductExact(listing[1..], productId);
      assert forall c :: c in listing <==> c == listing[0] || c in listing[1..];
      assert forall c :: c in OfProduct(listing[1..], productId) ==> c in listing[1..];
    }
  }

  /** A page shows changelogs of that product from the table and no others. */
  lemma ChangelogPage(listing: seq<Changelog>, table: map<string, Changelog>, productId: string,
                        offset: nat, limit: nat)
    requires Lists(listing, table)
    ensures forall c :: c in Window(OfProduct(listing, productId), offset, limit) ==>
              c in table.Values && c.productId == productId
  {
    OfProductExact(listing, productId);
    WindowWithin(OfProduct(listing, productId), offset, limit);
  }

  ghost predicate NoRepeats<T>(s: seq<T>) {
    forall i, j :: 0 <= i < j < |s| ==> s[i] != s[j]
  }

  /** A list in which nothing repeats is as long as the set of what it holds. */
  lemma {:induction false} DistinctCount<T>(s: seq<T>)
    requires NoRepeats(s)
    ensures |set x | x in s| == |s|
  {
    if s != [] {
      DistinctCount(s[1..]);
      assert (set x | x in s) == (set x | x in s[1..]) + {s[0]};
    }
  }

  /** The total a changelog page reports is the number of changelogs stored for the product. */
  lemma TotalExact(listing: seq<Changelog>, table: map<string, Changelog>, productId: string)
    requires Lists(listing, table)
    ensures |OfProduct(listing, productId)| == |set c | c in table.Values && c.productId == productId|
  {
    OfProductExact(listing, productId);
    DistinctCount(OfProduct(listing, productId));
    assert (set c | c in OfProduct(listing, productId)) == set c | c in table.Values && c.productId == productId;
  }

  /** A client that walks a product's changelog sees every changelog of that product, no other, none twice,
      newest first. */
  lemma ChangelogWalk(listing: seq<Changelog>, table: map<string, Changelog>, productId: string, limit: int)
    requires Lists(listing, table) && |OfProduct(listing, productId)| < Double.LIMIT
    ensures var seen := Joined(Walk(OfProduct(listing, productId), 1, limit));
      && (forall c :: c in seen <==> c in table.Values && c.productId == productId)
      && (forall i, j :: 0 <= i < j < |seen| ==> seen[i].createdAt >= seen[j].createdAt && seen[i] != seen[j])
  {
    OfProductExact(listing, productId);
    WalkShowsAll(OfProduct(listing, productId), limit);
  }
}

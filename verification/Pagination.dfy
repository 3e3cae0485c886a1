/**
 * Keyset pagination by (timestamp, id) descending, as `GET /transactions` and `GET /accounts` do it. Timestamps are
 * stored in microseconds, but a cursor is made from a value that only holds milliseconds.
 */
module Pagination {
  import opened Wrappers
  import opened Sums

  /** A row: the owner of its account, the account, the sort column in microseconds, and its uuid as a number. */
  datatype Row = Row(owner: nat, account: nat, at: nat, id: nat)

  datatype Cursor = Cursor(millis: nat, id: nat)

  /** Whose rows, and optionally of which account. */
  datatype Query = Query(user: nat, account: Option<nat>)

  datatype Page = Page(items: seq<Row>, next: Option<Cursor>)

  // ----- what the database does -----

  /** ORDER BY at DESC, id DESC: a comes before b. */
  predicate Above(a: Row, b: Row) { a.at > b.at || (a.at == b.at && a.id > b.id) }

  /** The row-value comparison (at, id) < (:c, :cid). */
  predicate Below(r: Row, c: Cursor) { r.at < c.millis * 1000 || (r.at == c.millis * 1000 && r.id < c.id) }

  predicate Matches(r: Row, q: Query, cursor: Option<Cursor>) {
    && r.owner == q.user
    && (q.account.Some? ==> r.account == q.account.value)
    && (cursor.Some? ==> Below(r, cursor.value))
  }

  function Where(table: seq<Row>, q: Query, cursor: Option<Cursor>): seq<Row> {
    if table == [] then []
    else (if Matches(table[0], q, cursor) then [table[0]] else []) + Where(table[1..], q, cursor)
  }

  function Place(r: Row, sorted: seq<Row>): seq<Row> {
    if sorted == [] || Above(r, sorted[0]) then [r] + sorted else [sorted[0]] + Place(r, sorted[1..])
  }

  function OrderBy(rows: seq<Row>): seq<Row> { if rows == [] then [] else Place(rows[0], OrderBy(rows[1..])) }

  function Take(rows: seq<Row>, limit: nat): seq<Row> { if |rows| < limit then rows else rows[..limit] }

  function FindPage(table: seq<Row>, q: Query, limit: nat, cursor: Option<Cursor>): seq<Row> {
    Take(OrderBy(Where(table, q, cursor)), limit)
  }

  // ----- what the service does -----

  /** The mapper's `toISOString()` drops what is below a millisecond. */
  function CursorOf(r: Row): Cursor { Cursor(r.at / 1000, r.id) }

  function List(table: seq<Row>, q: Query, limit: nat, cursor: Option<Cursor>): Page {
    var rows := FindPage(table, q, limit, cursor);
    Page(rows, if |rows| == limit && rows != [] then Some(CursorOf(rows[|rows| - 1])) else None)
  }

  /**
   * What a client that follows `next_cursor` is given when the table is tables[i] at request i: it stops asking when a
   * page comes without a cursor.
   */
  function Session(tables: seq<seq<Row>>, q: Query, limit: nat): seq<Page> {
    if tables == [] then []
    else Continue(Session(tables[..|tables| - 1], q, limit), tables[|tables| - 1], q, limit)
  }

  /** One request more. */
  function Continue(pages: seq<Page>, table: seq<Row>, q: Query, limit: nat): seq<Page> {
    if Finished(pages) then pages
    else pages + [List(table, q, limit, if pages == [] then None else pages[|pages| - 1].next)]
  }

  predicate Finished(pages: seq<Page>) { pages != [] && pages[|pages| - 1].next.None? }

  /** All rows of some pages, in the order received. */
  function Flat(pages: seq<Page>): seq<Row> {
    if pages == [] then [] else Flat(pages[..|pages| - 1]) + pages[|pages| - 1].items
  }

  // ----- ORDER BY, characterised -----

  ghost predicate Descending(rows: seq<Row>) { forall i, j :: 0 <= i < j < |rows| ==> Above(rows[i], rows[j]) }

  /** The primary key. */
  ghost predicate Distinct(rows: seq<Row>) { forall i, j :: 0 <= i < j < |rows| ==> rows[i].id != rows[j].id }

  lemma {:induction false} WhereIs(table: seq<Row>, q: Query, cursor: Option<Cursor>)
    ensures forall r :: r in Where(table, q, cursor) <==> r in table && Matches(r, q, cursor)
    ensures Distinct(table) ==> Distinct(Where(table, q, cursor))
  {
    if table != [] {
      var rest := Where(table[1..], q, cursor);
      WhereIs(table[1..], q, cursor);
      assert table == [table[0]] + table[1..];
      if Distinct(table) {
        forall r | r in rest ensures r.id != table[0].id {
          assert r in table[1..];
          var i :| 0 <= i < |table[1..]| && table[1..][i] == r;
          assert table[i + 1] == r;
        }
      }
    }
  }

  lemma {:induction false} PlaceIs(r: Row, sorted: seq<Row>)
    requires Descending(sorted) && forall x :: x in sorted ==> x.id != r.id
    ensures Descending(Place(r, sorted))
    ensures forall x :: x in Place(r, sorted) <==> x == r || x in sorted
  {
    if sorted != [] {
      if Above(r, sorted[0]) {
        forall i | 0 <= i < |sorted| ensures Above(r, sorted[i]) {}
      } else {
        PlaceIs(r, sorted[1..]);
        var rest := Place(r, sorted[1..]);
        assert sorted[0] in sorted;
        forall x | x in rest ensures Above(sorted[0], x) {
          if x != r {
            var i :| 0 <= i < |sorted[1..]| && sorted[1..][i] == x;
            assert sorted[i + 1] == x;
          }
        }
        assert sorted == [sorted[0]] + sorted[1..];
      }
    }
  }

  lemma {:induction false} OrderByIs(rows: seq<Row>)
    requires Distinct(rows)
    ensures Descending(OrderBy(rows))
    ensures forall r :: r in OrderBy(rows) <==> r in rows
  {
    if rows != [] {
      OrderByIs(rows[1..]);
      assert rows == [rows[0]] + rows[1..];
      forall x | x in OrderBy(rows[1..]) ensures x.id != rows[0].id {
        var i :| 0 <= i < |rows[1..]| && rows[1..][i] == x;
        assert rows[i + 1] == x;
      }
      PlaceIs(rows[0], OrderBy(rows[1..]));
    }
  }

  /** A descending listing is determined by its rows. */
  lemma {:induction false} DescendingIsUnique(a: seq<Row>, b: seq<Row>)
    requires Descending(a) && Descending(b) && forall r :: r in a <==> r in b
    ensures a == b
    decreases |a|
  {
    assert b != [] ==> b[0] in a;
    if a != [] {
      assert a[0] in b;
      assert a[0] == b[0];
      forall r ensures r in a[1..] <==> r in b[1..] {
        TailIs(a, r);
        TailIs(b, r);
      }
      DescendingIsUnique(a[1..], b[1..]);
    }
  }

  lemma TailIs(a: seq<Row>, r: Row)
    requires Descending(a) && a != []
    ensures r in a[1..] <==> r in a && r != a[0]
  {
    assert a == [a[0]] + a[1..];
    if r in a[1..] {
      var i :| 0 <= i < |a[1..]| && a[1..][i] == r;
      assert Above(a[0], a[i + 1]);
    }
  }

  /** The first rows below the cursor, in order, and none left out between them. */
  lemma FoundIs(table: seq<Row>, q: Query, limit: nat, cursor: Option<Cursor>)
    requires Distinct(table)
    ensures Descending(FindPage(table, q, limit, cursor)) && |FindPage(table, q, limit, cursor)| <= limit
    ensures forall r :: r in FindPage(table, q, limit, cursor) ==> r in table && Matches(r, q, cursor)
    ensures forall r :: r in table && Matches(r, q, cursor) && r !in FindPage(table, q, limit, cursor) ==>
      |FindPage(table, q, limit, cursor)| == limit && forall x :: x in FindPage(table, q, limit, cursor) ==> Above(x, r)
  {
    var rows := Where(table, q, cursor);
    var sorted := OrderBy(rows);
    var page := FindPage(table, q, limit, cursor);
    WhereIs(table, q, cursor);
    OrderByIs(rows);
    assert forall i :: 0 <= i < |page| ==> sorted[i] == page[i];
    forall r | r in table && Matches(r, q, cursor) && r !in page
      ensures |page| == limit && forall x :: x in page ==> Above(x, r)
    {
      assert r in sorted;
      var i :| 0 <= i < |sorted| && sorted[i] == r;
      assert i >= |page|;
    }
  }

  /**
   * What a page holds: rows of the user, of the account if one was named, below the cursor, in descending order of
   * (at, id); and such a row is only left out when the page is full and the row comes after all of it.
   */
  lemma PageIs(table: seq<Row>, q: Query, limit: nat, cursor: Option<Cursor>)
    requires Distinct(table)
    ensures
      var page := List(table, q, limit, cursor).items;
      && |page| <= limit
      && (forall i, j :: 0 <= i < j < |page| ==> page[i].at > page[j].at || (page[i].at == page[j].at && page[i].id > page[j].id))
      && (forall r :: r in page ==>
            && r in table && r.owner == q.user && (q.account.Some? ==> r.account == q.account.value)
            && (cursor.Some? ==>
                  var key := cursor.value.millis * 1000;
                  r.at < key || (r.at == key && r.id < cursor.value.id)))
      && (forall r ::
            (r in table && r !in page && r.owner == q.user && (q.account.Some? ==> r.account == q.account.value)
             && (cursor.Some? ==>
                   var key := cursor.value.millis * 1000;
                   r.at < key || (r.at == key && r.id < cursor.value.id)))
            ==> |page| == limit && forall x :: x in page ==> x.at > r.at || (x.at == r.at && x.id > r.id))
  {
    FoundIs(table, q, limit, cursor);
    var page := List(table, q, limit, cursor).items;
    forall i, j | 0 <= i < j < |page|
      ensures page[i].at > page[j].at || (page[i].at == page[j].at && page[i].id > page[j].id)
    {
      assert Above(page[i], page[j]);
    }
    forall r | r in table && r !in page && Matches(r, q, cursor)
      ensures forall x :: x in page ==> x.at > r.at || (x.at == r.at && x.id > r.id)
    {
      forall x | x in page ensures x.at > r.at || (x.at == r.at && x.id > r.id) { assert Above(x, r); }
    }
  }

  /** A full page carries the key of its last row, in milliseconds; any other page none. */
  lemma NextCursorIs(table: seq<Row>, q: Query, limit: nat, cursor: Option<Cursor>)
    requires limit >= 1
    ensures
      var p := List(table, q, limit, cursor);
      && (p.next.Some? <==> |p.items| == limit)
      && (p.next.Some? ==> p.next.value == Cursor(p.items[limit - 1].at / 1000, p.items[limit - 1].id))
  {
  }

  // ----- linked pages -----

  function Last(rows: seq<Row>): Row
    requires rows != []
  {
    rows[|rows| - 1]
  }

  /** A page in order, whose cursor, if it has one, is its last row's. */
  ghost predicate WellFormed(p: Page) {
    Descending(p.items) && (p.next.Some? ==> p.items != [] && p.next.value == CursorOf(Last(p.items)))
  }

  ghost predicate AllBelow(rows: seq<Row>, c: Cursor) { forall i :: 0 <= i < |rows| ==> Below(rows[i], c) }

  ghost predicate Follows(p: Page, p': Page) { p.next.Some? && AllBelow(p'.items, p.next.value) }

  /** Each page was asked for with the cursor of the page before it. */
  ghost predicate Linked(pages: seq<Page>) {
    && (forall i :: 0 <= i < |pages| ==> WellFormed(pages[i]))
    && (forall i :: 0 < i < |pages| ==> Follows(pages[i - 1], pages[i]))
  }

  /** Whatever is below a row's cursor comes after the row. */
  lemma BelowCursorIsAfter(r: Row, x: Row)
    requires Below(x, CursorOf(r))
    ensures Above(r, x)
  {
  }

  lemma DescendingJoins(front: seq<Row>, back: seq<Row>, c: Cursor)
    requires Descending(front) && Descending(back) && AllBelow(back, c)
    requires front != [] && c == CursorOf(Last(front))
    ensures Descending(front + back)
  {
    forall i, j | 0 <= i < |front| && 0 <= j < |back| ensures Above(front[i], back[j]) {
      BelowCursorIsAfter(Last(front), back[j]);
    }
  }

  lemma {:induction false} FlatEnds(pages: seq<Page>)
    requires Linked(pages) && pages != [] && pages[|pages| - 1].items != []
    ensures Flat(pages) != [] && Last(Flat(pages)) == Last(pages[|pages| - 1].items)
  {
  }

  lemma FlatGrows(pages: seq<Page>, p: Page)
    ensures Flat(pages + [p]) == Flat(pages) + p.items
  {
    assert (pages + [p])[..|pages|] == pages;
  }

  /** Linked pages, one after another, are in strictly descending order. */
  lemma {:induction false} LinkedDescends(pages: seq<Page>)
    requires Linked(pages)
    ensures Descending(Flat(pages))
    decreases |pages|
  {
    if |pages| == 1 {
      assert Flat(pages[..0]) == [];
      assert Flat(pages) == pages[0].items;
    } else if |pages| > 1 {
      var front, p := pages[..|pages| - 1], pages[|pages| - 1];
      LinkedDescends(front);
      var before := front[|front| - 1];
      assert Follows(before, p) && WellFormed(before) && WellFormed(p);
      FlatEnds(front);
      DescendingJoins(Flat(front), p.items, before.next.value);
    }
  }

  /** From page i on, every row is below the cursor page i was asked for with. */
  lemma {:induction false} LaterRowsAreBelow(pages: seq<Page>, i: nat, k: nat)
    requires Linked(pages) && 0 < i <= k < |pages|
    ensures pages[i - 1].next.Some? && AllBelow(pages[k].items, pages[i - 1].next.value)
    decreases k
  {
    assert Follows(pages[i - 1], pages[i]) && Follows(pages[k - 1], pages[k]);
    if i < k {
      LaterRowsAreBelow(pages, i, k - 1);
      assert WellFormed(pages[k - 1]);
      BelowIsInherited(pages[k - 1].items, pages[k].items, pages[i - 1].next.value);
    }
  }

  lemma BelowIsInherited(rows: seq<Row>, later: seq<Row>, c: Cursor)
    requires rows != [] && AllBelow(rows, c) && AllBelow(later, CursorOf(Last(rows)))
    ensures AllBelow(later, c)
  {
    assert Below(Last(rows), c);
    forall i | 0 <= i < |later| ensures Below(later[i], c) { BelowCursorIsAfter(Last(rows), later[i]); }
  }

  lemma {:induction false} OnSomePage(pages: seq<Page>, r: Row) returns (i: nat)
    requires r in Flat(pages)
    ensures i < |pages| && r in pages[i].items
    decreases |pages|
  {
    var n := |pages| - 1;
    if r in pages[n].items {
      i := n;
    } else {
      i := OnSomePage(pages[..n], r);
    }
  }

  // ----- any tables: order, no repeats -----

  ghost predicate AllDistinct(tables: seq<seq<Row>>) { forall i :: 0 <= i < |tables| ==> Distinct(tables[i]) }

  lemma ListIsWellFormed(table: seq<Row>, q: Query, limit: nat, cursor: Option<Cursor>)
    requires Distinct(table)
    ensures WellFormed(List(table, q, limit, cursor))
    ensures cursor.Some? ==> AllBelow(List(table, q, limit, cursor).items, cursor.value)
    ensures forall r :: r in List(table, q, limit, cursor).items ==> r in table && Matches(r, q, None)
  {
    FoundIs(table, q, limit, cursor);
    var rows := FindPage(table, q, limit, cursor);
    if cursor.Some? {
      forall i | 0 <= i < |rows| ensures Below(rows[i], cursor.value) { assert rows[i] in rows; }
    }
  }

  lemma LinkedGrows(pages: seq<Page>, p: Page)
    requires Linked(pages) && WellFormed(p) && (pages != [] ==> Follows(pages[|pages| - 1], p))
    ensures Linked(pages + [p])
  {
  }

  lemma {:induction false} SessionIsLinked(tables: seq<seq<Row>>, q: Query, limit: nat)
    requires AllDistinct(tables)
    ensures Linked(Session(tables, q, limit))
    decreases |tables|
  {
    if tables != [] {
      var n := |tables| - 1;
      var before := Session(tables[..n], q, limit);
      SessionIsLinked(tables[..n], q, limit);
      if !Finished(before) {
        var cursor := if before == [] then None else before[|before| - 1].next;
        ListIsWellFormed(tables[n], q, limit, cursor);
        LinkedGrows(before, List(tables[n], q, limit, cursor));
      }
    }
  }

  /** The number of times r occurs. */
  function Count(rows: seq<Row>, r: Row): nat { multiset(rows)[r] }

  lemma {:induction false} DescendingHasOnce(rows: seq<Row>, r: Row)
    requires Descending(rows)
    ensures Count(rows, r) == if r in rows then 1 else 0
  {
    if rows != [] {
      TailIs(rows, r);
      DescendingHasOnce(rows[1..], r);
      assert rows == [rows[0]] + rows[1..];
    }
  }

  /**
   * Nothing repeats and the order is kept: with any inserts, updates and deletes between the pages, and any timestamps,
   * what a client has received is strictly descending.
   */
  lemma NothingRepeats(tables: seq<seq<Row>>, q: Query, limit: nat)
    requires AllDistinct(tables)
    ensures
      var rows := Flat(Session(tables, q, limit));
      forall i, j :: 0 <= i < j < |rows| ==> rows[i].at > rows[j].at || (rows[i].at == rows[j].at && rows[i].id > rows[j].id)
    ensures forall r :: Count(Flat(Session(tables, q, limit)), r) <= 1
  {
    SessionIsLinked(tables, q, limit);
    LinkedDescends(Session(tables, q, limit));
    var rows := Flat(Session(tables, q, limit));
    forall i, j | 0 <= i < j < |rows|
      ensures rows[i].at > rows[j].at || (rows[i].at == rows[j].at && rows[i].id > rows[j].id)
    {
      assert Above(rows[i], rows[j]);
    }
    forall r ensures Count(Flat(Session(tables, q, limit)), r) <= 1 {
      DescendingHasOnce(Flat(Session(tables, q, limit)), r);
    }
  }

  /** Only rows of the user, and of the account if one was named, are ever sent. */
  lemma {:induction false} OnlyOwnRows(tables: seq<seq<Row>>, q: Query, limit: nat, r: Row)
    requires AllDistinct(tables) && r in Flat(Session(tables, q, limit))
    ensures r.owner == q.user && (q.account.Some? ==> r.account == q.account.value)
    ensures exists i :: 0 <= i < |tables| && r in tables[i]
    decreases |tables|
  {
    var n := |tables| - 1;
    var before := Session(tables[..n], q, limit);
    if r in Flat(before) {
      OnlyOwnRows(tables[..n], q, limit, r);
    } else {
      var cursor := if before == [] then None else before[|before| - 1].next;
      ListIsWellFormed(tables[n], q, limit, cursor);
      assert Session(tables, q, limit)[..|before|] == before;
    }
  }

  // ----- any tables with millisecond timestamps: nothing is missed -----

  /** TIMESTAMP(3): the stored value has no digits below the millisecond. */
  ghost predicate Millis(rows: seq<Row>) { forall i :: 0 <= i < |rows| ==> rows[i].at % 1000 == 0 }

  ghost predicate AllMillis(tables: seq<seq<Row>>) { forall i :: 0 <= i < |tables| ==> Millis(tables[i]) }

  lemma CursorIsExact(r: Row, x: Row)
    requires r.at % 1000 == 0
    ensures Below(x, CursorOf(r)) <==> Above(r, x)
  {
  }

  /** Row r is in the table at every request. */
  ghost predicate Stays(tables: seq<seq<Row>>, r: Row) { forall i :: 0 <= i < |tables| ==> r in tables[i] }

  /** Row r is below the cursor the client will send next. */
  predicate Ahead(pages: seq<Page>, r: Row) {
    pages == [] || (pages[|pages| - 1].next.Some? && Below(r, pages[|pages| - 1].next.value))
  }

  lemma AheadOfPage(table: seq<Row>, q: Query, limit: nat, cursor: Option<Cursor>, r: Row)
    requires Distinct(table) && Millis(table) && limit >= 1 && r in table && Matches(r, q, cursor)
    ensures r in List(table, q, limit, cursor).items || Ahead([List(table, q, limit, cursor)], r)
  {
    FoundIs(table, q, limit, cursor);
    var page := FindPage(table, q, limit, cursor);
    if r !in page {
      var last := Last(page);
      assert last in page && last in table;
      CursorIsExact(last, r);
    }
  }

  /** A row that stays has been received, or the client is still going to come to it. */
  lemma {:induction false} ReceivedOrAhead(tables: seq<seq<Row>>, q: Query, limit: nat, r: Row)
    requires AllDistinct(tables) && AllMillis(tables) && limit >= 1 && Stays(tables, r) && Matches(r, q, None)
    ensures r in Flat(Session(tables, q, limit)) || Ahead(Session(tables, q, limit), r)
    decreases |tables|
  {
    if tables != [] {
      var n := |tables| - 1;
      var before := Session(tables[..n], q, limit);
      ReceivedOrAhead(tables[..n], q, limit, r);
      if !Finished(before) {
        var cursor := if before == [] then None else before[|before| - 1].next;
        if r !in Flat(before) { AheadOfPage(tables[n], q, limit, cursor, r); }
        FlatGrows(before, List(tables[n], q, limit, cursor));
      }
    }
  }

  /**
   * When the last page has come, each matching row that was there throughout has been received exactly once, whatever
   * was inserted, deleted or updated between the pages.
   */
  lemma StableRowsAreSeenOnce(tables: seq<seq<Row>>, q: Query, limit: nat, r: Row)
    requires AllDistinct(tables) && AllMillis(tables) && limit >= 1 && Finished(Session(tables, q, limit))
    requires forall i :: 0 <= i < |tables| ==> r in tables[i]
    requires r.owner == q.user && (q.account.Some? ==> r.account == q.account.value)
    ensures Count(Flat(Session(tables, q, limit)), r) == 1
  {
    NothingRepeats(tables, q, limit);
    ReceivedOrAhead(tables, q, limit, r);
    DescendingHasOnce(Flat(Session(tables, q, limit)), r);
  }

  // ----- slices of a listing -----

  /** The whole answer to a query, in order. */
  function Listing(table: seq<Row>, q: Query): seq<Row> { OrderBy(Where(table, q, None)) }

  /** Rows a up to a + limit of a listing, and a cursor if that many are there. */
  function Slice(all: seq<Row>, a: nat, limit: nat): Page
    requires limit >= 1 && a <= |all|
  {
    Page(Take(all[a..], limit), if a + limit <= |all| then Some(CursorOf(all[a + limit - 1])) else None)
  }

  /** Page h holds the rows from h times the limit on. */
  ghost predicate AreSlices(pages: seq<Page>, all: seq<Row>, limit: nat)
    requires limit >= 1
  {
    forall h: nat {:trigger pages[h]} :: h < |pages| ==> Times(h, limit) <= |all| && pages[h] == Slice(all, Times(h, limit), limit)
  }

  /** After k requests: one page each, unless the last page has come. */
  ghost predicate Sliced(pages: seq<Page>, all: seq<Row>, limit: nat, k: nat)
    requires limit >= 1
  {
    AreSlices(pages, all, limit) && |pages| <= k && (|pages| == k || Finished(pages))
  }

  lemma NextSlice(all: seq<Row>, a: nat, limit: nat)
    requires a <= |all|
    ensures all[..a] + Take(all[a..], limit) == Take(all, a + limit)
  {
    assert all[..a] + all[a..] == all;
  }

  lemma {:induction false} FlatOfSlices(pages: seq<Page>, all: seq<Row>, limit: nat)
    requires limit >= 1 && AreSlices(pages, all, limit)
    ensures Flat(pages) == Take(all, Times(|pages|, limit))
    decreases |pages|
  {
    if pages == [] {
      assert all[..0] == [];
    } else {
      var n := |pages| - 1;
      LastSlice(pages, all, limit);
      FlatOfSlices(pages[..n], all, limit);
      FlatStep(pages, all, Times(n, limit), limit);
    }
  }

  lemma LastSlice(pages: seq<Page>, all: seq<Row>, limit: nat)
    requires limit >= 1 && AreSlices(pages, all, limit) && pages != []
    ensures
      var n := |pages| - 1;
      AreSlices(pages[..n], all, limit) && Times(n, limit) <= |all| && pages[n] == Slice(all, Times(n, limit), limit)
  {
    var n := |pages| - 1;
    var last := pages[n];
    forall h: nat | h < n ensures Times(h, limit) <= |all| && pages[..n][h] == Slice(all, Times(h, limit), limit) {
      assert pages[..n][h] == pages[h];
    }
  }

  lemma FlatStep(pages: seq<Page>, all: seq<Row>, a: nat, limit: nat)
    requires pages != [] && a <= |all| && Flat(pages[..|pages| - 1]) == Take(all, a)
    requires pages[|pages| - 1].items == Take(all[a..], limit)
    ensures Flat(pages) == Take(all, a + limit)
  {
    NextSlice(all, a, limit);
    assert Take(all, a) == all[..a];
  }

  lemma TimesIs(k: nat, limit: nat, n: nat)
    requires limit >= 1
    ensures Times(k, limit) <= n <==> k <= n / limit
  {
    TimesIsProduct(k, limit);
    QuotientIs(k, limit, n);
  }

  lemma QuotientIs(k: nat, limit: nat, n: nat)
    requires limit >= 1
    ensures k * limit <= n <==> k <= n / limit
  {
    var d, m := n / limit, n % limit;
    assert n == d * limit + m;
    if k <= d {
      assert k * limit <= d * limit;
    } else {
      assert k * limit >= (d + 1) * limit == d * limit + limit;
    }
  }

  // ----- an unchanging table -----

  /** The cut after m rows loses nothing: the next row is below the cursor the last one gives. */
  predicate CleanCut(all: seq<Row>, m: nat) { 0 < m < |all| ==> Below(all[m], CursorOf(all[m - 1])) }

  ghost predicate CleanCutsBefore(all: seq<Row>, limit: nat, k: nat) {
    forall i: nat :: 0 < i < k ==> CleanCut(all, Times(i, limit))
  }

  /** The listing holds the rows of the user, of the account if one was named, and no others, in descending order. */
  lemma ListingIs(table: seq<Row>, q: Query)
    requires Distinct(table)
    ensures Descending(Listing(table, q))
    ensures forall r :: r in Listing(table, q) <==>
      r in table && r.owner == q.user && (q.account.Some? ==> r.account == q.account.value)
  {
    WhereIs(table, q, None);
    OrderByIs(Where(table, q, None));
  }

  /** At a clean cut, the rows below the cursor are the rest of the listing. */
  lemma RestOfListing(table: seq<Row>, q: Query, m: nat)
    requires Distinct(table) && 0 < m <= |Listing(table, q)| && CleanCut(Listing(table, q), m)
    ensures OrderBy(Where(table, q, Some(CursorOf(Listing(table, q)[m - 1])))) == Listing(table, q)[m..]
  {
    var all := Listing(table, q);
    var c := Some(CursorOf(all[m - 1]));
    var rest := OrderBy(Where(table, q, c));
    ListingIs(table, q);
    WhereIs(table, q, c);
    OrderByIs(Where(table, q, c));
    forall r ensures r in rest <==> r in all[m..] { RestMember(all, m, r); }
    DescendingIsUnique(rest, all[m..]);
  }

  lemma RestMember(all: seq<Row>, m: nat, r: Row)
    requires Descending(all) && 0 < m <= |all| && CleanCut(all, m)
    ensures r in all[m..] <==> r in all && Below(r, CursorOf(all[m - 1]))
  {
    if r in all[m..] {
      var i :| 0 <= i < |all[m..]| && all[m..][i] == r;
      assert all[m + i] == r;
      assert m < m + i ==> Above(all[m], r);
    }
    if r in all && Below(r, CursorOf(all[m - 1])) {
      var i :| 0 <= i < |all| && all[i] == r;
      BelowCursorIsAfter(all[m - 1], r);
      assert i < m - 1 ==> Above(r, all[m - 1]);
      assert i >= m;
      assert all[m..][i - m] == r;
    }
  }

  lemma ListAtCut(table: seq<Row>, q: Query, limit: nat, m: nat)
    requires Distinct(table) && limit >= 1 && 0 < m <= |Listing(table, q)| && CleanCut(Listing(table, q), m)
    ensures List(table, q, limit, Some(CursorOf(Listing(table, q)[m - 1]))) == Slice(Listing(table, q), m, limit)
  {
    RestOfListing(table, q, m);
    TakenIsSlice(Listing(table, q), m, limit);
  }

  /** The service's cursor rule agrees with "that many rows are there". */
  lemma TakenIsSlice(all: seq<Row>, a: nat, limit: nat)
    requires limit >= 1 && a <= |all|
    ensures var rows := Take(all[a..], limit);
      Slice(all, a, limit) == Page(rows, if |rows| == limit && rows != [] then Some(CursorOf(Last(rows))) else None)
  {
  }

  /** Nobody writes: the table is the same at every request. */
  ghost predicate Unchanging(tables: seq<seq<Row>>, table: seq<Row>) {
    forall i :: 0 <= i < |tables| ==> tables[i] == table
  }

  /** A client of an unchanging table is given slice after slice of the listing, while the cuts are clean. */
  lemma {:induction false} SessionIsSlices(tables: seq<seq<Row>>, table: seq<Row>, q: Query, limit: nat)
    requires Unchanging(tables, table) && Distinct(table) && limit >= 1
    requires CleanCutsBefore(Listing(table, q), limit, |tables|)
    ensures Sliced(Session(tables, q, limit), Listing(table, q), limit, |tables|)
    decreases |tables|
  {
    var all := Listing(table, q);
    if tables != [] {
      var n := |tables| - 1;
      SessionIsSlices(tables[..n], table, q, limit);
      assert n > 0 ==> CleanCut(all, Times(n, limit));
      ContinueKeepsSlices(table, q, limit, Session(tables[..n], q, limit), n);
    }
  }

  lemma ContinueKeepsSlices(table: seq<Row>, q: Query, limit: nat, pages: seq<Page>, k: nat)
    requires Distinct(table) && limit >= 1 && Sliced(pages, Listing(table, q), limit, k)
    requires k > 0 ==> CleanCut(Listing(table, q), Times(k, limit))
    ensures Sliced(Continue(pages, table, q, limit), Listing(table, q), limit, k + 1)
  {
    if !Finished(pages) {
      NextIsSlice(table, q, limit, pages);
    }
  }

  lemma SlicesGrow(pages: seq<Page>, all: seq<Row>, limit: nat, p: Page)
    requires limit >= 1 && AreSlices(pages, all, limit)
    requires Times(|pages|, limit) <= |all| && p == Slice(all, Times(|pages|, limit), limit)
    ensures AreSlices(pages + [p], all, limit)
  {
    var more := pages + [p];
    forall h: nat | h < |more| ensures Times(h, limit) <= |all| && more[h] == Slice(all, Times(h, limit), limit) {
      if h < |pages| {
        var q := pages[h];
        assert more[h] == q;
      }
    }
  }

  lemma FirstPageIsSlice(table: seq<Row>, q: Query, limit: nat)
    requires limit >= 1
    ensures List(table, q, limit, None) == Slice(Listing(table, q), 0, limit)
  {
    var all := Listing(table, q);
    assert all[0..] == all;
    TakenIsSlice(all, 0, limit);
  }

  lemma NextIsSlice(table: seq<Row>, q: Query, limit: nat, pages: seq<Page>)
    requires Distinct(table) && limit >= 1 && AreSlices(pages, Listing(table, q), limit) && !Finished(pages)
    requires pages != [] ==> CleanCut(Listing(table, q), Times(|pages|, limit))
    ensures AreSlices(Continue(pages, table, q, limit), Listing(table, q), limit)
  {
    var all, n := Listing(table, q), |pages|;
    var next := List(table, q, limit, if n == 0 then None else pages[n - 1].next);
    if n == 0 {
      FirstPageIsSlice(table, q, limit);
    } else {
      LastSlice(pages, all, limit);
      ListAtCut(table, q, limit, Times(n, limit));
    }
    assert Times(n, limit) <= |all| && next == Slice(all, Times(n, limit), limit);
    SlicesGrow(pages, all, limit, next);
  }

  lemma MillisCutsAreClean(table: seq<Row>, q: Query, m: nat)
    requires Distinct(table) && Millis(table)
    ensures CleanCut(Listing(table, q), m)
  {
    ListingIs(table, q);
    var all := Listing(table, q);
    if 0 < m < |all| {
      assert all[m - 1] in table;
      CursorIsExact(all[m - 1], all[m]);
    }
  }

  /**
   * A client of an unchanging table gets the whole listing, every matching row once and in descending order, and is
   * finished after n div limit + 1 requests and not before.
   */
  lemma WholeListingInExactlyEnoughRequests(tables: seq<seq<Row>>, table: seq<Row>, q: Query, limit: nat)
    requires Unchanging(tables, table) && Distinct(table) && Millis(table) && limit >= 1
    ensures Finished(Session(tables, q, limit)) <==> |tables| >= |Listing(table, q)| / limit + 1
    ensures Finished(Session(tables, q, limit)) ==> |Session(tables, q, limit)| == |Listing(table, q)| / limit + 1
    ensures Finished(Session(tables, q, limit)) ==> Flat(Session(tables, q, limit)) == Listing(table, q)
  {
    var all, pages := Listing(table, q), Session(tables, q, limit);
    forall m: nat ensures CleanCut(all, m) { MillisCutsAreClean(table, q, m); }
    SessionIsSlices(tables, table, q, limit);
    SlicesCount(pages, all, limit);
    if Finished(pages) {
      FinishedSlicesAreAll(pages, all, limit);
    }
  }

  lemma SlicesEnd(pages: seq<Page>, all: seq<Row>, limit: nat)
    requires limit >= 1 && AreSlices(pages, all, limit) && pages != []
    ensures Times(|pages| - 1, limit) <= |all|
    ensures Finished(pages) <==> Times(|pages|, limit) > |all|
  {
    var last := pages[|pages| - 1];
    assert last == Slice(all, Times(|pages| - 1, limit), limit);
  }

  lemma SlicesCount(pages: seq<Page>, all: seq<Row>, limit: nat)
    requires limit >= 1 && AreSlices(pages, all, limit)
    ensures |pages| <= |all| / limit + 1
    ensures Finished(pages) <==> |pages| == |all| / limit + 1
  {
    if pages != [] {
      SlicesEnd(pages, all, limit);
      LastFoundIs(|pages|, limit, |all|);
    }
  }

  lemma LastFoundIs(k: nat, limit: nat, n: nat)
    requires limit >= 1 && k > 0 && Times(k - 1, limit) <= n
    ensures k <= n / limit + 1
    ensures Times(k, limit) > n <==> k == n / limit + 1
  {
    TimesIs(k, limit, n);
    TimesIs(k - 1, limit, n);
  }

  lemma FinishedSlicesAreAll(pages: seq<Page>, all: seq<Row>, limit: nat)
    requires limit >= 1 && AreSlices(pages, all, limit) && Finished(pages)
    ensures Flat(pages) == all
  {
    SlicesEnd(pages, all, limit);
    FlatOfSlices(pages, all, limit);
  }

  // ----- any timestamps: exactly when the listing is complete -----

  ghost predicate AllCutsClean(all: seq<Row>, limit: nat) { forall i: nat :: CleanCut(all, Times(i, limit)) }

  lemma {:induction false} FirstBadCut(all: seq<Row>, limit: nat, i: nat) returns (k: nat)
    requires !CleanCut(all, Times(i, limit))
    ensures 0 < k <= i && !CleanCut(all, Times(k, limit)) && CleanCutsBefore(all, limit, k)
    decreases i
  {
    if CleanCutsBefore(all, limit, i) {
      k := i;
    } else {
      var h: nat :| 0 < h < i && !CleanCut(all, Times(h, limit));
      k := FirstBadCut(all, limit, h);
    }
  }

  lemma ContinueExtends(pages: seq<Page>, table: seq<Row>, q: Query, limit: nat)
    ensures pages <= Continue(pages, table, q, limit)
  {
  }

  /** A longer session starts with the shorter one. */
  lemma {:induction false} SessionExtends(tables: seq<seq<Row>>, q: Query, limit: nat, i: nat)
    requires i <= |tables|
    ensures Session(tables[..i], q, limit) <= Session(tables, q, limit)
    decreases |tables|
  {
    var n := |tables|;
    if i < n {
      SessionExtends(tables[..n - 1], q, limit, i);
      assert tables[..n - 1][..i] == tables[..i];
      ContinueExtends(Session(tables[..n - 1], q, limit), tables[n - 1], q, limit);
    } else {
      assert tables[..i] == tables;
    }
  }

  /** The row after the first bad cut is never received. */
  lemma RowAfterBadCutIsLost(tables: seq<seq<Row>>, table: seq<Row>, q: Query, limit: nat, i: nat)
    requires Unchanging(tables, table) && Distinct(table) && limit >= 1 && 0 < i <= |tables|
    requires !CleanCut(Listing(table, q), Times(i, limit)) && CleanCutsBefore(Listing(table, q), limit, i)
    ensures Listing(table, q)[Times(i, limit)] !in Flat(Session(tables, q, limit))
  {
    var all, pages, front := Listing(table, q), Session(tables, q, limit), Session(tables[..i], q, limit);
    SessionIsLinked(tables, q, limit);
    SessionIsSlices(tables[..i], table, q, limit);
    NotFinishedBefore(front, all, limit, i);
    SessionExtends(tables, q, limit, i);
    assert pages[..i] == front;
    ListingIs(table, q);
    LostAtBadCut(all, limit, i, pages);
  }

  lemma NotFinishedBefore(pages: seq<Page>, all: seq<Row>, limit: nat, i: nat)
    requires limit >= 1 && AreSlices(pages, all, limit) && |pages| <= i && Times(i, limit) < |all|
    ensures !Finished(pages)
  {
    TimesIs(i, limit, |all|);
    TimesIs(|pages|, limit, |all|);
    if pages != [] {
      SlicesEnd(pages, all, limit);
    }
  }

  lemma LostAtBadCut(all: seq<Row>, limit: nat, i: nat, pages: seq<Page>)
    requires Descending(all) && limit >= 1 && 0 < i <= |pages| && !CleanCut(all, Times(i, limit))
    requires Linked(pages) && AreSlices(pages[..i], all, limit)
    ensures all[Times(i, limit)] !in Flat(pages)
  {
    var m := Times(i, limit);
    assert pages[..i][i - 1] == Slice(all, Times(i - 1, limit), limit);
    assert pages[i - 1].next == Some(CursorOf(all[m - 1]));
    if all[m] in Flat(pages) {
      var h := OnSomePage(pages, all[m]);
      if h < i {
        NotInSlices(all, limit, pages[..i], h);
      } else {
        LaterRowsAreBelow(pages, i, h);
      }
    }
  }

  lemma NotInSlices(all: seq<Row>, limit: nat, pages: seq<Page>, h: nat)
    requires Descending(all) && limit >= 1 && h < |pages| && AreSlices(pages, all, limit)
    requires Times(|pages|, limit) < |all|
    ensures all[Times(|pages|, limit)] !in pages[h].items
  {
    FlatOfSlices(pages, all, limit);
    FlatHas(pages, h);
    NotBefore(all, Times(|pages|, limit));
  }

  lemma NotBefore(all: seq<Row>, m: nat)
    requires Descending(all) && m < |all|
    ensures all[m] !in all[..m]
  {
    forall x | 0 <= x < m ensures all[x] != all[m] { assert Above(all[x], all[m]); }
  }

  lemma {:induction false} FlatHas(pages: seq<Page>, h: nat)
    requires h < |pages|
    ensures forall r :: r in pages[h].items ==> r in Flat(pages)
    decreases |pages|
  {
    if h < |pages| - 1 {
      FlatHas(pages[..|pages| - 1], h);
    }
  }

  /**
   * A cursor holds milliseconds, so with finer timestamps a client misses rows: in the end it has received the whole
   * listing exactly when, at each multiple of the limit, the next row is below the truncated key of the row before.
   */
  lemma ListingIsCompleteExactlyWhen(tables: seq<seq<Row>>, table: seq<Row>, q: Query, limit: nat)
    requires Unchanging(tables, table) && Distinct(table) && limit >= 1 && |tables| > |Listing(table, q)| / limit
    ensures Flat(Session(tables, q, limit)) == Listing(table, q) <==> AllCutsClean(Listing(table, q), limit)
  {
    var all, pages := Listing(table, q), Session(tables, q, limit);
    if AllCutsClean(all, limit) {
      SessionIsSlices(tables, table, q, limit);
      SlicesCount(pages, all, limit);
      FinishedSlicesAreAll(pages, all, limit);
    } else {
      var h: nat :| !CleanCut(all, Times(h, limit));
      TimesIs(h, limit, |all|);
      var i := FirstBadCut(all, limit, h);
      RowAfterBadCutIsLost(tables, table, q, limit, i);
      assert all[Times(i, limit)] in all;
    }
  }

  function Sample(id: nat): Row { Row(1, 1, 36035363, id) }

  /** Three rows of one microsecond, two a page: the second page is empty and the third row never comes. */
  lemma SubMillisecondRowIsMissed(table: seq<Row>, q: Query)
    requires table == [Sample(3), Sample(2), Sample(1)] && q == Query(1, None)
    ensures Session([table, table], q, 2) == [Page(table[..2], Some(Cursor(36035, 2))), Page([], None)]
    ensures Distinct(table) && Matches(table[2], q, None)
  {
    SampleFirstPage(table, q);
    SampleSecondPage(table, q);
    SampleSession(table, q, table[..2], Cursor(36035, 2));
  }

  lemma SampleSession(table: seq<Row>, q: Query, items: seq<Row>, c: Cursor)
    requires List(table, q, 2, None) == Page(items, Some(c)) && List(table, q, 2, Some(c)) == Page([], None)
    ensures Session([table, table], q, 2) == [Page(items, Some(c)), Page([], None)]
  {
    var none: seq<seq<Row>> := [];
    assert [table, table][..1] == [table];
    assert [table][..0] == none;
    assert Continue([], table, q, 2) == [Page(items, Some(c))];
    assert Session([table], q, 2) == Continue([], table, q, 2);
  }

  lemma SampleFirstPage(table: seq<Row>, q: Query)
    requires table == [Sample(3), Sample(2), Sample(1)] && q == Query(1, None)
    ensures List(table, q, 2, None) == Page(table[..2], Some(Cursor(36035, 2)))
  {
    var a, b, c := Sample(3), Sample(2), Sample(1);
    assert table[1..] == [b, c] && [b, c][1..] == [c] && [c][1..] == [];
    assert OrderBy([c]) == [c];
    assert OrderBy([b, c]) == [b, c];
    assert Where([c], q, None) == [c];
    assert Where([b, c], q, None) == [b, c];
    assert Where(table, q, None) == table;
  }

  lemma SampleSecondPage(table: seq<Row>, q: Query)
    requires table == [Sample(3), Sample(2), Sample(1)] && q == Query(1, None)
    ensures List(table, q, 2, Some(Cursor(36035, 2))) == Page([], None)
  {
    var b, c, cursor := Sample(2), Sample(1), Some(Cursor(36035, 2));
    assert table[1..] == [b, c] && [b, c][1..] == [c] && [c][1..] == [];
    assert Where([c], q, cursor) == [];
    assert Where([b, c], q, cursor) == [];
  }
}

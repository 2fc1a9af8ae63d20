/** Cursor paging: what a client gets by following nextCursor to the end, for lists in id order, in
    (start, id) order, and for logs whose pages are reversed. The table does not change meanwhile. */
module Pagination {
  import opened Prelude
  import opened Text

  datatype Row = Row(at: int, id: int)

  datatype Order = ById | ByStart

  predicate Less(o: Order, a: Row, b: Row) {
    match o
    case ById => a.id < b.id
    case ByStart => a.at < b.at || (a.at == b.at && a.id < b.id)
  }

  predicate UniqueIds(rows: seq<Row>) {
    forall i, j :: 0 <= i < j < |rows| ==> rows[i].id != rows[j].id
  }

  predicate Descending(o: Order, rows: seq<Row>) {
    forall i, j :: 0 <= i < j < |rows| ==> Less(o, rows[j], rows[i])
  }

  // --- The query: WHERE key < cursor ORDER BY key DESC LIMIT n ---------------------------

  function Below(o: Order, table: seq<Row>, cursor: Option<Row>): (found: seq<Row>)
    ensures forall r :: r in found <==> r in table && (cursor.Some? ==> Less(o, r, cursor.value))
  {
    if table == [] then []
    else
      var rest := Below(o, table[1..], cursor);
      if cursor.Some? && !Less(o, table[0], cursor.value) then rest else [table[0]] + rest
  }

  lemma {:induction false} BelowIsUnique(o: Order, table: seq<Row>, cursor: Option<Row>)
    requires UniqueIds(table)
    ensures UniqueIds(Below(o, table, cursor))
  {
    if table != [] {
      BelowIsUnique(o, table[1..], cursor);
      forall r | r in Below(o, table[1..], cursor) ensures r.id != table[0].id {
        var i :| 0 <= i < |table[1..]| && table[1..][i] == r;
      }
    }
  }

  function Insert(o: Order, r: Row, sorted: seq<Row>): (s: seq<Row>)
    ensures |s| == |sorted| + 1
    ensures forall x :: x in s <==> x == r || x in sorted
  {
    if sorted == [] || !Less(o, r, sorted[0]) then [r] + sorted
    else [sorted[0]] + Insert(o, r, sorted[1..])
  }

  function Sorted(o: Order, rows: seq<Row>): (s: seq<Row>)
    ensures |s| == |rows|
    ensures forall x :: x in s <==> x in rows
  {
    if rows == [] then [] else Insert(o, rows[0], Sorted(o, rows[1..]))
  }

  function Query(o: Order, table: seq<Row>, cursor: Option<Row>, n: nat): seq<Row> {
    var all := Sorted(o, Below(o, table, cursor));
    all[..Min(n, |all|)]
  }

  // --- One page, and all of them ---------------------------------------------------------

  datatype Page = Page(items: seq<Row>, next: Option<Row>)

  function PageOf(found: seq<Row>, limit: nat): Page {
    var hasMore := |found| > limit;
    var visible := found[..Min(limit, |found|)];
    Page(visible, if hasMore && visible != [] then Some(visible[|visible| - 1]) else None)
  }

  function Fetch(o: Order, table: seq<Row>, cursor: Option<Row>, limit: nat): Page {
    PageOf(Query(o, table, cursor, limit + 1), limit)
  }

  // The pages a client collects: every next cursor leaves fewer rows, so they come to an end.
  function Pages(o: Order, table: seq<Row>, cursor: Option<Row>, limit: nat): seq<seq<Row>>
    requires limit >= 1 && UniqueIds(table)
    decreases |Below(o, table, cursor)|
  {
    var page := Fetch(o, table, cursor, limit);
    if page.next.None? then [page.items]
    else
      NextStartsAfter(o, table, cursor, limit);
      [page.items] + Pages(o, table, page.next, limit)
  }

  function Flatten(pages: seq<seq<Row>>): seq<Row> {
    if pages == [] then [] else pages[0] + Flatten(pages[1..])
  }

  // --- Sorting ---------------------------------------------------------------------------

  lemma {:induction false} InsertDescends(o: Order, r: Row, sorted: seq<Row>)
    requires Descending(o, sorted) && forall x :: x in sorted ==> x.id != r.id
    ensures Descending(o, Insert(o, r, sorted))
  {
    if sorted != [] {
      if Less(o, r, sorted[0]) {
        InsertDescends(o, r, sorted[1..]);
        var rest := Insert(o, r, sorted[1..]);
        forall j | 0 <= j < |rest| ensures Less(o, rest[j], sorted[0]) {
          assert rest[j] in rest;
        }
      } else {
        assert Less(o, sorted[0], r);
      }
    }
  }

  lemma {:induction false} SortedDescends(o: Order, rows: seq<Row>)
    requires UniqueIds(rows)
    ensures Descending(o, Sorted(o, rows))
  {
    if rows != [] {
      SortedDescends(o, rows[1..]);
      InsertDescends(o, rows[0], Sorted(o, rows[1..]));
    }
  }

  lemma {:induction false} DescendingIsUnique(o: Order, a: seq<Row>, b: seq<Row>)
    requires Descending(o, a) && Descending(o, b) && forall x :: x in a <==> x in b
    ensures a == b
  {
    if b != [] {
      assert b[0] in b;
    }
    if a != [] {
      assert a[0] in b && b[0] in a;
      assert a[0] == b[0];
      forall x ensures x in a[1..] <==> x in b[1..] {
        TailHolds(o, a, x);
        TailHolds(o, b, x);
      }
      DescendingIsUnique(o, a[1..], b[1..]);
    }
  }

  lemma TailHolds(o: Order, a: seq<Row>, x: Row)
    requires Descending(o, a) && a != []
    ensures x in a[1..] <==> x in a && x != a[0]
  {
    if x in a && x != a[0] {
      var i :| 0 <= i < |a| && a[i] == x;
      assert a[1..][i - 1] == x;
    }
  }

  // --- Completeness ----------------------------------------------------------------------

  // The cursor of a full page is its last row.
  lemma FullPage(o: Order, table: seq<Row>, cursor: Option<Row>, limit: nat)
    requires limit >= 1 && Fetch(o, table, cursor, limit).next.Some?
    ensures var all := Sorted(o, Below(o, table, cursor));
            var page := Fetch(o, table, cursor, limit);
            limit < |all| && page.items == all[..limit] && page.next == Some(all[limit - 1])
  {
    hide Sorted, Below;
  }

  // The rows after a full page are exactly the rows below its last one.
  lemma NextStartsAfter(o: Order, table: seq<Row>, cursor: Option<Row>, limit: nat)
    requires limit >= 1 && UniqueIds(table) && Fetch(o, table, cursor, limit).next.Some?
    ensures var all := Sorted(o, Below(o, table, cursor));
            var page := Fetch(o, table, cursor, limit);
            && limit < |all| && page.items == all[..limit]
            && Sorted(o, Below(o, table, page.next)) == all[limit..]
            && |Below(o, table, page.next)| == |Below(o, table, cursor)| - limit
  {
    hide *;
    FullPage(o, table, cursor, limit);
    var all := Sorted(o, Below(o, table, cursor));
    var next := Fetch(o, table, cursor, limit).next;
    BelowIsUnique(o, table, cursor);
    BelowIsUnique(o, table, next);
    SortedDescends(o, Below(o, table, cursor));
    SortedDescends(o, Below(o, table, next));
    var after := Sorted(o, Below(o, table, next));
    forall x ensures x in after <==> x in all[limit..] {
      SuffixHolds(o, all, limit, x);
      BelowTheNext(o, table, cursor, next.value, x);
    }
    DescendingIsUnique(o, after, all[limit..]);
  }

  // What is below a row that is itself below the cursor is below both.
  lemma BelowTheNext(o: Order, table: seq<Row>, cursor: Option<Row>, next: Row, x: Row)
    requires next in Below(o, table, cursor)
    ensures x in Below(o, table, Some(next)) <==> x in Below(o, table, cursor) && Less(o, x, next)
  {
    hide Below;
  }

  lemma SuffixHolds(o: Order, all: seq<Row>, k: nat, x: Row)
    requires Descending(o, all) && 1 <= k <= |all|
    ensures x in all[k..] <==> x in all && Less(o, x, all[k - 1])
  {
    if x in all && Less(o, x, all[k - 1]) {
      var i :| 0 <= i < |all| && all[i] == x;
      assert i >= k;
      assert all[k..][i - k] == x;
    }
  }

  lemma PagesUnfold(o: Order, table: seq<Row>, cursor: Option<Row>, limit: nat)
    requires limit >= 1 && UniqueIds(table)
    ensures var page := Fetch(o, table, cursor, limit);
            Pages(o, table, cursor, limit) ==
            if page.next.None? then [page.items] else [page.items] + Pages(o, table, page.next, limit)
  {
    hide Fetch, Below;
  }

  // The last page is what is left.
  lemma LastPage(o: Order, table: seq<Row>, cursor: Option<Row>, limit: nat)
    requires limit >= 1 && Fetch(o, table, cursor, limit).next.None?
    ensures Fetch(o, table, cursor, limit).items == Sorted(o, Below(o, table, cursor))
    ensures |Sorted(o, Below(o, table, cursor))| <= limit
  {
    hide Sorted, Below;
  }

  lemma {:induction false} PagesFrom(o: Order, table: seq<Row>, cursor: Option<Row>, limit: nat)
    requires limit >= 1 && UniqueIds(table)
    ensures Flatten(Pages(o, table, cursor, limit)) == Sorted(o, Below(o, table, cursor))
    decreases |Below(o, table, cursor)|
  {
    PagesUnfold(o, table, cursor, limit);
    hide *;
    var all := Sorted(o, Below(o, table, cursor));
    var page := Fetch(o, table, cursor, limit);
    if page.next.None? {
      LastPage(o, table, cursor, limit);
      FlattenOne(page.items);
    } else {
      NextStartsAfter(o, table, cursor, limit);
      PagesFrom(o, table, page.next, limit);
      FlattenMore(page.items, Pages(o, table, page.next, limit));
      CutAt(all, limit);
    }
  }

  lemma FlattenOne(page: seq<Row>)
    ensures Flatten([page]) == page
  {
    assert Flatten([page]) == page + Flatten([]);
  }

  lemma FlattenMore(page: seq<Row>, rest: seq<seq<Row>>)
    ensures Flatten([page] + rest) == page + Flatten(rest)
  {
    assert ([page] + rest)[1..] == rest;
  }

  lemma {:induction false} AllBelow(o: Order, table: seq<Row>)
    ensures Below(o, table, None) == table
  {
    if table != [] {
      AllBelow(o, table[1..]);
    }
  }

  // Following the cursors yields the whole list in order, each row once, for any page size.
  lemma PagingIsComplete(o: Order, table: seq<Row>, limit: nat)
    requires limit >= 1 && UniqueIds(table)
    ensures var listed := Flatten(Pages(o, table, None, limit));
            && listed == Sorted(o, table) && Descending(o, listed)
            && |listed| == |table| && forall r :: r in listed <==> r in table
  {
    PagesFrom(o, table, None, limit);
    AllBelow(o, table);
    SortedDescends(o, table);
  }

  // Every page but the last is full, and no page of a non-empty table is empty.
  lemma {:induction false} PagesAreFull(o: Order, table: seq<Row>, cursor: Option<Row>, limit: nat)
    requires limit >= 1 && UniqueIds(table)
    ensures var pages := Pages(o, table, cursor, limit);
            && (forall k :: 0 <= k < |pages| - 1 ==> |pages[k]| == limit)
            && (Below(o, table, cursor) != [] ==> 1 <= |pages[|pages| - 1]| <= limit)
    decreases |Below(o, table, cursor)|
  {
    PagesUnfold(o, table, cursor, limit);
    hide *;
    var page := Fetch(o, table, cursor, limit);
    if page.next.None? {
      LastPage(o, table, cursor, limit);
    } else {
      NextStartsAfter(o, table, cursor, limit);
      PagesAreFull(o, table, page.next, limit);
    }
  }

  // --- Logs ------------------------------------------------------------------------------

  function Reverse<T>(s: seq<T>): (r: seq<T>)
    ensures |r| == |s| && forall i :: 0 <= i < |s| ==> r[i] == s[|s| - 1 - i]
  {
    if s == [] then [] else Reverse(s[1..]) + [s[0]]
  }

  // The log handler takes its cursor from the page before turning it oldest first.
  function LogPages(table: seq<Row>, limit: nat): seq<seq<Row>>
    requires limit >= 1 && UniqueIds(table)
  {
    ReverseEach(Pages(ById, table, None, limit))
  }

  function ReverseEach(pages: seq<seq<Row>>): seq<seq<Row>> {
    if pages == [] then [] else [Reverse(pages[0])] + ReverseEach(pages[1..])
  }

  lemma ReverseOfSum<T>(a: seq<T>, b: seq<T>)
    ensures Reverse(a + b) == Reverse(b) + Reverse(a)
  {
  }

  lemma FlattenUnfolds(pages: seq<seq<Row>>)
    requires pages != []
    ensures Flatten(pages) == pages[0] + Flatten(pages[1..])
  {
  }

  lemma {:induction false} FlattenAppends(a: seq<seq<Row>>, b: seq<seq<Row>>)
    ensures Flatten(a + b) == Flatten(a) + Flatten(b)
  {
    if a == [] {
      assert a + b == b;
    } else {
      FlattenUnfolds(a);
      FlattenUnfolds(a + b);
      hide Flatten;
      SlicesOfSum(a, b, 1);
      FlattenAppends(a[1..], b);
      Regroup(a[0], Flatten(a[1..]), Flatten(b));
    }
  }

  lemma {:induction false} ReversedPagesFlatten(pages: seq<seq<Row>>)
    ensures Flatten(Reverse(ReverseEach(pages))) == Reverse(Flatten(pages))
  {
    if pages != [] {
      var rest := ReverseEach(pages[1..]);
      assert ReverseEach(pages)[1..] == rest;
      ReversedPagesFlatten(pages[1..]);
      FlattenAppends(Reverse(rest), [Reverse(pages[0])]);
      assert Flatten([Reverse(pages[0])]) == Reverse(pages[0]) + Flatten([]);
      ReverseOfSum(pages[0], Flatten(pages[1..]));
    }
  }

  // A client that puts each further page of a log before the ones it has ends up with the whole log,
  // oldest entry first.
  lemma LogReadsInOrder(table: seq<Row>, limit: nat)
    requires limit >= 1 && UniqueIds(table)
    ensures Flatten(Reverse(LogPages(table, limit))) == Reverse(Sorted(ById, table))
  {
    ReversedPagesFlatten(Pages(ById, table, None, limit));
    PagingIsComplete(ById, table, limit);
  }
}

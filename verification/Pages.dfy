/** Keyset pagination over a fixed table: following Next walks the whole ordered list once. */
module Pages {
  import opened Basics
  import opened Sorting

  /** A row with its sort key; the stored key order is taken to be total. */
  datatype Row = Row(at: Time, id: string, body: string)

  datatype Anchor = Anchor(at: Time, id: string)

  function KeyOf(r: Row): Anchor {
    Anchor(r.at, r.id)
  }

  predicate KeyBefore(a: Anchor, b: Anchor) {
    a.at < b.at || (a.at == b.at && TextBefore(a.id, b.id))
  }

  /** `ORDER BY at DESC, id DESC`. */
  predicate Newer(a: Row, b: Row) {
    KeyBefore(KeyOf(b), KeyOf(a))
  }

  /** Ids are unique. */
  ghost predicate Keyed(table: seq<Row>) {
    forall i, j :: 0 <= i < j < |table| ==> table[i].id != table[j].id
  }

  function Filter(rows: seq<Row>, p: Row -> bool): seq<Row> {
    if rows == [] then [] else Filter(rows[..|rows| - 1], p) + if p(rows[|rows| - 1]) then [rows[|rows| - 1]] else []
  }

  /** The whole filtered and ordered list. */
  function Listing(table: seq<Row>, p: Row -> bool): seq<Row> {
    Sort((a, b) => Newer(a, b), Filter(table, p))
  }

  /** Which list is queried. */
  datatype Kind = EventList | SessionList | MessageList

  /** Events and sessions ignore a cursor without a time or with a blank id; for messages a cursor without
      a time stands for tomorrow, so it leaves no stored row out. */
  predicate Usable(kind: Kind, a: Anchor) {
    a.at != 0 && (kind == MessageList || !Blank(a.id))
  }

  predicate Below(kind: Kind, cursor: Option<Anchor>, r: Row) {
    cursor.Some? && Usable(kind, cursor.value) ==> KeyBefore(KeyOf(r), cursor.value)
  }

  /** The rows the WHERE clause lets through. */
  function Matching(kind: Kind, p: Row -> bool, cursor: Option<Anchor>): Row -> bool {
    (r: Row) => p(r) && Below(kind, cursor, r)
  }

  /** The rows a list query returns. */
  function Selected(kind: Kind, table: seq<Row>, p: Row -> bool, cursor: Option<Anchor>, limit: nat): seq<Row> {
    var rows := Listing(table, Matching(kind, p, cursor));
    if |rows| <= limit then rows else rows[..limit]
  }

  method SelectRows(kind: Kind, table: seq<Row>, p: Row -> bool, cursor: Option<Anchor>, limit: nat)
    returns (out: seq<Row>)
    ensures out == Selected(kind, table, p, cursor, limit)
  {
    var matching := [];
    var i := 0;
    while i < |table|
      invariant 0 <= i <= |table|
      invariant matching == Filter(table[..i], Matching(kind, p, cursor))
    {
      assert table[..i + 1][..i] == table[..i];
      if p(table[i]) && Below(kind, cursor, table[i]) {
        matching := matching + [table[i]];
      }
      i := i + 1;
    }
    assert table[..i] == table;
    var rows := Sort((a, b) => Newer(a, b), matching);
    out := [];
    i := 0;
    while i < |rows| && i < limit
      invariant 0 <= i <= |rows| && i <= limit && out == rows[..i]
    {
      out := out + [rows[i]];
      i := i + 1;
    }
  }

  // ----- The listing -----------------------------------------------------------------------------------

  lemma {:induction false} FilterKeeps(rows: seq<Row>, p: Row -> bool)
    ensures forall r :: r in Filter(rows, p) <==> r in rows && p(r)
    ensures Keyed(rows) ==> NoRepeats(Filter(rows, p))
  {
    if rows != [] {
      var n := |rows| - 1;
      FilterKeeps(rows[..n], p);
      assert forall r :: r in rows <==> r in rows[..n] || r == rows[n];
      if Keyed(rows) {
        assert rows[n] !in rows[..n] by {
          assert forall i :: 0 <= i < n ==> rows[i].id != rows[n].id;
        }
      }
    }
  }

  lemma NewerIsTotal(rows: seq<Row>)
    requires forall a, b :: a in rows && b in rows && a.id == b.id ==> a == b
    ensures TotalOn((a, b) => Newer(a, b), Elements(rows))
  {
    forall a, b | a in rows && b in rows ensures !Newer(a, a) && (a != b ==> Newer(a, b) || Newer(b, a)) {
      TextTotal(a.id, b.id);
    }
    forall a, b, c | Newer(a, b) && Newer(b, c) ensures Newer(a, c) {
      if a.at == b.at == c.at {
        TextTransitive(c.id, b.id, a.id);
      }
    }
  }

  lemma {:induction false} KeyedIds(table: seq<Row>, a: Row, b: Row)
    requires Keyed(table) && a in table && b in table && a.id == b.id
    ensures a == b
  {
    var i :| 0 <= i < |table| && table[i] == a;
    var j :| 0 <= j < |table| && table[j] == b;
  }

  /** By time, newest first, and by id among rows of one time. */
  ghost predicate NewestFirst(rows: seq<Row>) {
    forall i, j :: 0 <= i < j < |rows| ==>
      rows[i].at > rows[j].at || (rows[i].at == rows[j].at && TextBefore(rows[j].id, rows[i].id))
  }

  ghost predicate OldestFirst(rows: seq<Row>) {
    forall i, j :: 0 <= i < j < |rows| ==>
      rows[i].at < rows[j].at || (rows[i].at == rows[j].at && TextBefore(rows[i].id, rows[j].id))
  }

  /** The listing has every row asked for, once, newest first. */
  lemma ListingIsNewestFirst(table: seq<Row>, p: Row -> bool)
    requires Keyed(table)
    ensures var rows := Listing(table, p);
            NewestFirst(rows) && NoRepeats(rows) && forall r :: r in rows <==> r in table && p(r)
  {
    ListingIsOrdered(table, p);
    var rows := Listing(table, p);
    forall i, j | 0 <= i < j < |rows| ensures rows[i] != rows[j] {
      TextTotal(rows[i].id, rows[i].id);
    }
  }

  lemma ReversedIsOldestFirst(rows: seq<Row>)
    requires NewestFirst(rows)
    ensures OldestFirst(Reversed(rows)) && forall r :: r in Reversed(rows) <==> r in rows
  {
    var back := Reversed(rows);
    forall k | 0 <= k < |rows| ensures back[k] == rows[|rows| - 1 - k] {
      ReversedAt(rows, k);
    }
    forall r | r in rows ensures r in back {
      var i :| 0 <= i < |rows| && rows[i] == r;
      assert back[|rows| - 1 - i] == r;
    }
  }

  lemma ListingIsOrdered(table: seq<Row>, p: Row -> bool)
    requires Keyed(table)
    ensures var rows := Listing(table, p);
            && SortedBy((a, b) => Newer(a, b), rows)
            && (forall r :: r in rows <==> r in table && p(r))
            && TotalOn((a, b) => Newer(a, b), Elements(rows))
  {
    var rows := Filter(table, p);
    FilterKeeps(table, p);
    forall a, b | a in rows && b in rows && a.id == b.id ensures a == b {
      KeyedIds(table, a, b);
    }
    NewerIsTotal(rows);
    SortSorts((a, b) => Newer(a, b), rows);
    assert Elements(Listing(table, p)) == Elements(rows);
  }

  /** Behind the anchor of its i-th row a listing goes on with the rows from i on. */
  lemma ListingBehind(kind: Kind, table: seq<Row>, p: Row -> bool, i: nat)
    requires Keyed(table) && 0 < i <= |Listing(table, p)|
    requires Usable(kind, KeyOf(Listing(table, p)[i - 1]))
    ensures Listing(table, Matching(kind, p, Some(KeyOf(Listing(table, p)[i - 1])))) == Listing(table, p)[i..]
  {
    var less := (a: Row, b: Row) => Newer(a, b);
    var rows := Listing(table, p);
    var cursor := Some(KeyOf(rows[i - 1]));
    var q := Matching(kind, p, cursor);
    var rest := Listing(table, q);
    ListingIsOrdered(table, p);
    ListingIsOrdered(table, q);
    forall r ensures r in rest <==> r in rows[i..] {
      if r in rows {
        var k :| 0 <= k < |rows| && rows[k] == r;
        BelowIffBehind(rows, i, k);
      }
    }
    assert SortedBy(less, rows[i..]);
    SortedIsUnique(less, rest, rows[i..]);
  }

  lemma BelowIffBehind(rows: seq<Row>, i: nat, k: nat)
    requires 0 < i <= |rows| && k < |rows|
    requires SortedBy((a, b) => Newer(a, b), rows) && TotalOn((a, b) => Newer(a, b), Elements(rows))
    ensures Newer(rows[i - 1], rows[k]) <==> k >= i
    ensures rows[k] in rows[i..] <==> k >= i
  {
    assert rows[i - 1] in rows && rows[k] in rows;
    if k >= i {
      assert rows[i..][k - i] == rows[k];
    } else {
      forall j | 0 <= j < |rows| - i ensures rows[i..][j] != rows[k] {
        assert Newer(rows[k], rows[i + j]);
      }
    }
    if k < i - 1 {
      assert Newer(rows[k], rows[i - 1]);
    }
  }

  // ----- Pages -----------------------------------------------------------------------------------------

  datatype Page = Page(items: seq<Row>, next: Option<Anchor>)

  function PageFetchLimit(limit: int): nat {
    if limit <= 0 then 51 else limit + 1
  }

  /** buildEventPage and buildSessionPage. */
  function BuildPage(items: seq<Row>, limit: int): Page {
    if limit <= 0 || |items| <= limit then Page(items, None) else Page(items[..limit], Some(KeyOf(items[limit - 1])))
  }

  /** ListEvents and ListSessions: one row more than the page is fetched. */
  function ListPage(kind: Kind, table: seq<Row>, p: Row -> bool, cursor: Option<Anchor>, limit: int): Page {
    BuildPage(Selected(kind, table, p, cursor, PageFetchLimit(limit)), PageFetchLimit(limit) - 1)
  }

  /** Every row of the listing can serve as an anchor. */
  ghost predicate AllUsable(kind: Kind, rows: seq<Row>) {
    forall i :: 0 <= i < |rows| ==> Usable(kind, KeyOf(rows[i]))
  }

  function AnchorAt(rows: seq<Row>, i: nat): Option<Anchor>
    requires i <= |rows|
  {
    if i == 0 then None else Some(KeyOf(rows[i - 1]))
  }

  /** The walk can go on behind the first i rows. */
  ghost predicate UsableAt(kind: Kind, rows: seq<Row>, i: nat)
    requires i <= |rows|
  {
    i > 0 ==> Usable(kind, KeyOf(rows[i - 1]))
  }

  lemma RestBehind(kind: Kind, table: seq<Row>, p: Row -> bool, i: nat)
    requires Keyed(table) && i <= |Listing(table, p)| && UsableAt(kind, Listing(table, p), i)
    ensures Listing(table, Matching(kind, p, AnchorAt(Listing(table, p), i))) == Listing(table, p)[i..]
  {
    var rows := Listing(table, p);
    if i > 0 {
      ListingBehind(kind, table, p, i);
    } else {
      var q := Matching(kind, p, None);
      ListingIsOrdered(table, p);
      ListingIsOrdered(table, q);
      SortedIsUnique((a, b) => Newer(a, b), Listing(table, q), rows);
      assert rows[0..] == rows;
    }
  }

  /** Where the page behind the first i of n rows ends. */
  function PageEnd(limit: int, i: nat, n: nat): (end: nat)
    requires i <= n
    ensures i <= end <= n
  {
    var size := if limit <= 0 then 50 else limit;
    if i + size < n then i + size else n
  }

  lemma FetchedPage(rows: seq<Row>, i: nat, limit: int)
    requires i <= |rows|
    ensures var rest := rows[i..];
            var fetch := PageFetchLimit(limit);
            var end := PageEnd(limit, i, |rows|);
            BuildPage(if |rest| <= fetch then rest else rest[..fetch], fetch - 1)
              == Page(rows[i..end], if end < |rows| then AnchorAt(rows, end) else None)
  {
    var rest := rows[i..];
    var fetch := PageFetchLimit(limit);
    var fetched := if |rest| <= fetch then rest else rest[..fetch];
    if |rest| >= fetch {
      assert fetched[..fetch - 1] == rows[i..i + fetch - 1];
      assert fetched[fetch - 2] == rows[i + fetch - 2];
    }
  }

  /** The page behind the first i rows: the next rows in order, and an anchor exactly when more follow. */
  lemma PageBehind(kind: Kind, table: seq<Row>, p: Row -> bool, limit: int, i: nat)
    requires Keyed(table) && i <= |Listing(table, p)| && UsableAt(kind, Listing(table, p), i)
    ensures var rows := Listing(table, p);
            var end := PageEnd(limit, i, |rows|);
            ListPage(kind, table, p, AnchorAt(rows, i), limit) == Page(rows[i..end], if end < |rows| then AnchorAt(rows, end) else None)
  {
    RestBehind(kind, table, p, i);
    FetchedPage(Listing(table, p), i, limit);
  }

  function Flatten(pages: seq<seq<Row>>): seq<Row> {
    if pages == [] then [] else Flatten(pages[..|pages| - 1]) + pages[|pages| - 1]
  }

  lemma {:induction false} FlattenPushed(pages: seq<seq<Row>>, page: seq<Row>)
    ensures Flatten(pages + [page]) == Flatten(pages) + page
  {
    assert (pages + [page])[..|pages|] == pages;
  }

  /** The page behind the first i rows, as the service answers it. */
  method FetchPage(kind: Kind, table: seq<Row>, p: Row -> bool, limit: int, cursor: Option<Anchor>, ghost i: nat)
    returns (page: Page)
    requires Keyed(table) && i <= |Listing(table, p)|
    requires cursor == AnchorAt(Listing(table, p), i) && UsableAt(kind, Listing(table, p), i)
    ensures var rows := Listing(table, p);
            var end := PageEnd(limit, i, |rows|);
            page == Page(rows[i..end], if end < |rows| then AnchorAt(rows, end) else None)
            && rows[..i] + page.items == rows[..end]
  {
    PageBehind(kind, table, p, limit, i);
    var items := SelectRows(kind, table, p, cursor, PageFetchLimit(limit));
    page := BuildPage(items, PageFetchLimit(limit) - 1);
  }

  /** A client that follows Next until it is nil: it ends, and its pages are the listing, each row once
      and in order. */
  method WalkPages(kind: Kind, table: seq<Row>, p: Row -> bool, limit: int) returns (pages: seq<seq<Row>>)
    requires Keyed(table) && AllUsable(kind, Listing(table, p))
    ensures Flatten(pages) == Listing(table, p)
    ensures NewestFirst(Flatten(pages)) && NoRepeats(Flatten(pages)) && forall r :: r in Flatten(pages) <==> r in table && p(r)
    ensures forall k :: 0 <= k < |pages| ==> |pages[k]| <= if limit <= 0 then 50 else limit
  {
    ghost var rows := Listing(table, p);
    ghost var i := 0;
    pages := [];
    var cursor: Option<Anchor> := None;
    var more := true;
    while more
      invariant 0 <= i <= |rows| && Flatten(pages) == rows[..i]
      invariant if more then cursor == AnchorAt(rows, i) && (i == 0 || i < |rows|) else i == |rows|
      invariant forall k :: 0 <= k < |pages| ==> |pages[k]| <= if limit <= 0 then 50 else limit
      decreases |rows| - i, more
    {
      var page := FetchPage(kind, table, p, limit, cursor, i);
      FlattenPushed(pages, page.items);
      pages := pages + [page.items];
      i := PageEnd(limit, i, |rows|);
      cursor, more := page.next, page.next.Some?;
    }
    assert rows[..i] == rows;
    ListingIsNewestFirst(table, p);
  }

  /** An anchor without a time or with a blank id is ignored: the walk starts over, so it would never end. */
  lemma UnusableAnchorStartsOver(kind: Kind, table: seq<Row>, p: Row -> bool, limit: int, a: Anchor)
    requires (a.at == 0 || (kind != MessageList && Blank(a.id))) && Keyed(table)
    ensures ListPage(kind, table, p, Some(a), limit) == ListPage(kind, table, p, None, limit)
  {
    var q, r := Matching(kind, p, Some(a)), Matching(kind, p, None);
    ListingIsOrdered(table, q);
    ListingIsOrdered(table, r);
    SortedIsUnique((x, y) => Newer(x, y), Listing(table, q), Listing(table, r));
  }

  lemma PagesDiffer(kind: Kind, table: seq<Row>, p: Row -> bool, limit: int, i: nat)
    requires Keyed(table) && 0 < i < |Listing(table, p)|
    ensures var rows := Listing(table, p); rows[0..PageEnd(limit, 0, |rows|)] != rows[i..PageEnd(limit, i, |rows|)]
  {
    var rows := Listing(table, p);
    ListingIsOrdered(table, p);
    assert rows[0] in rows && Newer(rows[0], rows[i]) && !Newer(rows[0], rows[0]);
    assert rows[0..PageEnd(limit, 0, |rows|)][0] != rows[i..PageEnd(limit, i, |rows|)][0];
  }

  /** Following an anchor goes on with the next rows exactly when the anchor is usable. */
  lemma AnchorLeadsOnIffUsable(kind: Kind, table: seq<Row>, p: Row -> bool, limit: int, i: nat)
    requires Keyed(table) && 0 < i < |Listing(table, p)|
    ensures var rows := Listing(table, p);
            (ListPage(kind, table, p, AnchorAt(rows, i), limit).items == rows[i..PageEnd(limit, i, |rows|)]
             <==> rows[i - 1].at != 0 && (kind == MessageList || !Blank(rows[i - 1].id)))
  {
    var anchor := KeyOf(Listing(table, p)[i - 1]);
    if Usable(kind, anchor) {
      PageBehind(kind, table, p, limit, i);
    } else {
      UnusableAnchorStartsOver(kind, table, p, limit, anchor);
      PageBehind(kind, table, p, limit, 0);
      PagesDiffer(kind, table, p, limit, i);
    }
  }

  // ----- Message history ---------------------------------------------------------------------------------

  /** buildMessagePage: the rows are oldest first, so the extra one is the first. */
  function BuildMessagePage(items: seq<Row>, limit: int): Page {
    if limit <= 0 || |items| <= limit then Page(items, None) else Page(items[1..], Some(KeyOf(items[1])))
  }

  function MessagePage(table: seq<Row>, p: Row -> bool, cursor: Option<Anchor>, limit: int): Page {
    BuildMessagePage(Reversed(Selected(MessageList, table, p, cursor, PageFetchLimit(limit))), PageFetchLimit(limit) - 1)
  }

  lemma {:induction false} ReversedPage(items: seq<Row>, limit: nat)
    requires limit > 0 && |items| <= limit + 1
    ensures BuildMessagePage(Reversed(items), limit) == Page(Reversed(BuildPage(items, limit).items), BuildPage(items, limit).next)
  {
    if |items| == limit + 1 {
      ReversedLast(items);
      ReversedAt(items[..limit], 0);
    }
  }

  lemma {:induction false} ReversedLast(items: seq<Row>)
    requires items != []
    ensures Reversed(items)[0] == items[|items| - 1] && Reversed(items)[1..] == Reversed(items[..|items| - 1])
  {
  }

  /** A message page is the page of the newest-first list turned around. */
  lemma MessagePageIsReversed(table: seq<Row>, p: Row -> bool, cursor: Option<Anchor>, limit: int)
    ensures var page := ListPage(MessageList, table, p, cursor, limit);
            MessagePage(table, p, cursor, limit) == Page(Reversed(page.items), page.next)
  {
    ReversedPage(Selected(MessageList, table, p, cursor, PageFetchLimit(limit)), PageFetchLimit(limit) - 1);
  }

  /** Following Next through a session's history and putting older pages in front yields the full history,
      oldest first. */
  method WalkHistory(table: seq<Row>, p: Row -> bool, limit: int) returns (history: seq<Row>)
    requires Keyed(table) && AllUsable(MessageList, Listing(table, p))
    ensures history == Reversed(Listing(table, p))
    ensures OldestFirst(history) && forall r :: r in history <==> r in table && p(r)
  {
    ghost var rows := Listing(table, p);
    ghost var i := 0;
    history := [];
    var cursor: Option<Anchor> := None;
    var more := true;
    while more
      invariant 0 <= i <= |rows| && history == Reversed(rows[..i])
      invariant if more then cursor == AnchorAt(rows, i) && (i == 0 || i < |rows|) else i == |rows|
      decreases |rows| - i, more
    {
      PageBehind(MessageList, table, p, limit, i);
      MessagePageIsReversed(table, p, cursor, limit);
      var items := SelectRows(MessageList, table, p, cursor, PageFetchLimit(limit));
      var oldestFirst := Reverse(items);
      var page := BuildMessagePage(oldestFirst, PageFetchLimit(limit) - 1);
      ghost var end := PageEnd(limit, i, |rows|);
      assert rows[..i] + rows[i..end] == rows[..end];
      ReversedConcat(rows[..i], rows[i..end]);
      history := page.items + history;
      i := end;
      cursor, more := page.next, page.next.Some?;
    }
    assert rows[..i] == rows;
    ListingIsNewestFirst(table, p);
    ReversedIsOldestFirst(rows);
  }
}

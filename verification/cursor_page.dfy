/**
 Pages of the append-heavy tables, newest first (services/index.go, services/pagination.go). A reader passes
 the time and the id of the last row it has as a cursor for the next page.
 */
module CursorPage {
  import opened Text

  const MAX_UINT64 := 0xffff_ffff_ffff_ffff
  const DEFAULT_MAX_PAGE_SIZE := 100

  datatype Row = Row(id: int, time: int)

  /** The request parameters; page and size are 0 when they are no numbers. */
  datatype Params = Params(beforeTime: string, beforeId: string, page: int, size: int)
  datatype PageOptions = PageOptions(page: int, size: int)

  /** What ApplyBeforeCursor adds to the query. */
  datatype Cursor = NoCursor | BeforeTime(time: int) | BeforeRow(time: int, id: int)

  function ParsePage(p: Params, maxSize: int): (o: PageOptions)
    ensures o.page >= 1 && 1 <= o.size <= if maxSize <= 0 then DEFAULT_MAX_PAGE_SIZE else maxSize
    ensures o.page == if p.page <= 0 then 1 else p.page
    ensures 1 <= p.size <= maxSize ==> o.size == p.size
    ensures p.size <= 0 && maxSize >= 20 ==> o.size == 20
    ensures p.size > maxSize > 0 ==> o.size == maxSize
    ensures p.size > 100 && maxSize <= 0 ==> o.size == 100
  {
    var page := if p.page <= 0 then 1 else p.page;
    var size := if p.size <= 0 then 20 else p.size;
    var limit := if maxSize <= 0 then DEFAULT_MAX_PAGE_SIZE else maxSize;
    PageOptions(page, if size > limit then limit else size)
  }

  /** The value that strconv.ParseUint(s, 10, 64) returns, errors or not. */
  function ParseUint64(s: string): int {
    match Digits(s)
    case None => 0
    case Some(n) => if n <= MAX_UINT64 then n else MAX_UINT64
  }

  function ApplyBeforeCursor(p: Params): Cursor {
    match ParseInt64(TrimSpace(p.beforeTime))
    case None => NoCursor
    case Some(time) =>
      if time <= 0 then NoCursor
      else
        var id := ParseUint64(TrimSpace(p.beforeId));
        if id > 0 then BeforeRow(time, id) else BeforeTime(time)
  }

  predicate Passes(c: Cursor, r: Row) {
    match c
    case NoCursor => true
    case BeforeTime(time) => r.time < time
    case BeforeRow(time, id) => r.time < time || (r.time == time && r.id < id)
  }

  function Selected(rows: set<Row>, c: Cursor): set<Row> {
    set r | r in rows && Passes(c, r)
  }

  // ---------------------------------------------------------------- the order of a listing

  /** time DESC, id DESC */
  predicate Above(a: Row, b: Row) {
    a.time > b.time || (a.time == b.time && a.id > b.id)
  }

  predicate Descending(list: seq<Row>) {
    forall i, j | 0 <= i < j < |list| :: Above(list[i], list[j])
  }

  predicate RowsOK(rows: set<Row>) {
    && (forall r | r in rows :: 0 < r.id <= MAX_UINT64 && 0 < r.time <= MAX_INT64)
    && (forall a, b | a in rows && b in rows && a.id == b.id :: a == b)
  }

  function Elements(list: seq<Row>): set<Row> {
    set r | r in list
  }

  lemma {:induction false} TopExists(rows: set<Row>) returns (top: Row)
    requires rows != {}
    ensures top in rows && forall r | r in rows && r != top :: Above(top, r)
    decreases |rows|
  {
    var first :| first in rows;
    if rows == {first} {
      top := first;
    } else {
      var rest := rows - {first};
      assert rows == rest + {first};
      var most := TopExists(rest);
      top := if Above(first, most) then first else most;
      forall r | r in rows && r != top ensures Above(top, r) {
        assert r != first && r != most ==> Above(most, r);
      }
    }
  }

  /** The rows in the order of the query. */
  ghost function Listing(rows: set<Row>): seq<Row>
    decreases |rows|
  {
    if rows == {} then []
    else
      assert exists top :: top in rows && forall r | r in rows && r != top :: Above(top, r) by {
        var t := TopExists(rows);
      }
      var top :| top in rows && forall r | r in rows && r != top :: Above(top, r);
      [top] + Listing(rows - {top})
  }

  lemma {:induction false} ListingLists(rows: set<Row>)
    ensures Descending(Listing(rows)) && Elements(Listing(rows)) == rows && |Listing(rows)| == |rows|
    decreases |rows|
  {
    if rows != {} {
      var list := Listing(rows);
      var top := list[0];
      assert list == [top] + Listing(rows - {top});
      ListingLists(rows - {top});
      assert Elements(list) == {top} + Elements(list[1..]);
      forall i, j | 0 <= i < j < |list| ensures Above(list[i], list[j]) {
        assert list[j] == list[1..][j - 1] && list[j] in Elements(list[1..]);
        if i > 0 {
          assert list[i] == list[1..][i - 1];
        }
      }
    }
  }

  lemma NoElements(list: seq<Row>)
    ensures Elements(list) == {} <==> list == []
  {
    if list != [] {
      assert list[0] in Elements(list);
    }
  }

  /** Rows have one descending order. */
  lemma {:induction false} DescendingIsUnique(a: seq<Row>, b: seq<Row>)
    requires Descending(a) && Descending(b) && Elements(a) == Elements(b)
    ensures a == b
    decreases |a|
  {
    if a == [] {
      NoElements(b);
    } else {
      assert a[0] in Elements(a) && a[0] in Elements(b);
      assert b[0] in Elements(b) && b[0] in Elements(a);
      var i :| 0 <= i < |b| && b[i] == a[0];
      var j :| 0 <= j < |a| && a[j] == b[0];
      assert a[0] == b[0];
      TailElements(a);
      TailElements(b);
      DescendingIsUnique(a[1..], b[1..]);
    }
  }

  lemma TailElements(list: seq<Row>)
    requires Descending(list) && list != []
    ensures Descending(list[1..]) && Elements(list[1..]) == Elements(list) - {list[0]}
  {
  }

  /** What a listing has after a row is the listing of the rows that pass the cursor of that row. */
  lemma AfterCursor(rows: set<Row>, k: nat)
    requires 0 < k <= |rows|
    ensures |Listing(rows)| == |rows|
    ensures var last := Listing(rows)[k - 1];
            Listing(rows)[k..] == Listing(Selected(rows, BeforeRow(last.time, last.id)))
  {
    hide Listing;
    ListingLists(rows);
    var last := Listing(rows)[k - 1];
    var some := Selected(rows, BeforeRow(last.time, last.id));
    ListingLists(some);
    BelowIsTail(Listing(rows), k);
    assert Elements(Listing(rows)[k..]) == some;
    DescendingIsUnique(Listing(rows)[k..], Listing(some));
  }

  lemma BelowIsTail(list: seq<Row>, k: nat)
    requires Descending(list) && 0 < k <= |list|
    ensures Descending(list[k..])
    ensures Elements(list[k..]) == set r | r in Elements(list) && Above(list[k - 1], r)
  {
  }

  // ---------------------------------------------------------------- one page

  function Min(a: nat, b: nat): nat {
    if a < b then a else b
  }

  /** queryPageCursor, the rows of it; a cursor takes the place of the page number. */
  ghost function Page(rows: set<Row>, p: Params, maxSize: int): seq<Row> {
    var o := ParsePage(p, maxSize);
    var c := ApplyBeforeCursor(p);
    var list := Listing(Selected(rows, c));
    var offset: nat := if c.NoCursor? then Offset(o) else 0;
    if offset >= |list| then [] else list[offset..Min(offset + o.size, |list|)]
  }

  function Offset(o: PageOptions): (offset: nat)
    requires o.page >= 1 && o.size >= 1
    ensures o.page == 1 ==> offset == 0
  {
    (o.page - 1) * o.size
  }

  /** The cursor that a reader makes of the last row it has. */
  function CursorOf(r: Row): (string, string)
    requires r.id > 0 && r.time > 0
  {
    (Decimal(r.time), Decimal(r.id))
  }

  lemma CursorRoundTrip(r: Row, page: int, size: int)
    requires 0 < r.id <= 0xffff_ffff_ffff_ffff && 0 < r.time <= 0x7fff_ffff_ffff_ffff
    ensures ApplyBeforeCursor(Params(CursorOf(r).0, CursorOf(r).1, page, size)) == BeforeRow(r.time, r.id)
  {
    hide TrimSpace, ParseInt64, Digits, Decimal, IsSpace;
    ParseReadsDecimal(r.time);
    DecimalIsTrimmed(r.time);
    DecimalIsTrimmed(r.id);
  }

  // ---------------------------------------------------------------- a reader of all pages

  /** `fetches` counts the pages read; `collected` is all of them one after the other. */
  datatype State = State(rows: set<Row>, collected: seq<Row>, fetches: nat)

  /** A reader starts at page 1 and then passes cursors, with any page number; meanwhile rows come in above
      its cursor. */
  datatype Step = Fetch(page: int) | Insert(row: Row)

  predicate Possible(s: State, a: Step) {
    match a
    case Fetch(page) => s.collected != [] || page <= 1
    case Insert(row) => s.collected != [] && RowsOK(s.rows + {row}) && Above(row, s.collected[|s.collected| - 1])
  }

  function ParamsOf(s: State, page: int, size: int): Params {
    if s.collected == [] then Params("", "", page, size)
    else
      var last := s.collected[|s.collected| - 1];
      if last.id > 0 && last.time > 0 then Params(CursorOf(last).0, CursorOf(last).1, page, size)
      else Params("", "", page, size)
  }

  ghost function Apply(s: State, a: Step, size: int, maxSize: int): State {
    match a
    case Fetch(page) => s.(collected := s.collected + Page(s.rows, ParamsOf(s, page, size), maxSize),
                           fetches := s.fetches + 1)
    case Insert(row) => s.(rows := s.rows + {row})
  }

  /** The rows still to come, for the reader's cursor. */
  function Remaining(s: State): set<Row> {
    if s.collected == [] then s.rows
    else
      var last := s.collected[|s.collected| - 1];
      Selected(s.rows, BeforeRow(last.time, last.id))
  }

  /** The size of the reader's pages. */
  function Width(size: int, maxSize: int): nat {
    ParsePage(Params("", "", 1, size), maxSize).size
  }

  /** What is collected and what remains are together the table as it was at the start. */
  ghost predicate Inv(s: State, start: set<Row>, size: nat) {
    && RowsOK(s.rows) && Elements(s.collected) <= s.rows
    && s.collected + Listing(Remaining(s)) == Listing(start)
    && |s.collected| == Min(s.fetches * size, |Listing(start)|)
  }

  lemma FetchReads(s: State, page: int, size: int, maxSize: int)
    requires RowsOK(s.rows) && Elements(s.collected) <= s.rows && Possible(s, Fetch(page))
    ensures var list := Listing(Remaining(s));
            Page(s.rows, ParamsOf(s, page, size), maxSize) == list[..Min(Width(size, maxSize), |list|)]
  {
    if s.collected == [] {
      assert Selected(s.rows, NoCursor) == s.rows;
      assert Digits("") == None;
    } else {
      var last := s.collected[|s.collected| - 1];
      assert last in Elements(s.collected);
      CursorRoundTrip(last, page, size);
    }
  }

  lemma OnePageMore(fetches: nat, width: nat, n: nat)
    ensures Min((fetches + 1) * width, n) == Min(fetches * width, n) + Min(width, n - Min(fetches * width, n))
  {
  }

  lemma FetchKeepsInv(s: State, page: int, size: int, maxSize: int, start: set<Row>)
    requires Inv(s, start, Width(size, maxSize)) && Possible(s, Fetch(page))
    ensures Inv(Apply(s, Fetch(page), size, maxSize), start, Width(size, maxSize))
  {
    hide RowsOK, Page, Width;
    var t := Apply(s, Fetch(page), size, maxSize);
    var list := Listing(Remaining(s));
    var k := Min(Width(size, maxSize), |list|);
    FetchReads(s, page, size, maxSize);
    assert t.collected == s.collected + list[..k];
    OnePageMore(s.fetches, Width(size, maxSize), |Listing(start)|);
    TakeKeepsInv(s, t, list, k);
    assert t.collected + Listing(Remaining(t)) == s.collected + list;
  }

  lemma TakeKeepsInv(s: State, t: State, list: seq<Row>, k: nat)
    requires list == Listing(Remaining(s)) && k <= |list| && Elements(s.collected) <= s.rows
    requires t.rows == s.rows && t.collected == s.collected + list[..k]
    ensures t.collected + Listing(Remaining(t)) == s.collected + list && Elements(t.collected) <= s.rows
  {
    hide Listing, Selected, Passes;
    ListingLists(Remaining(s));
    TakenAreRows(s, list, k);
    NextRemaining(s, t, list, k);
    Rejoin(s.collected, list, k);
  }

  lemma Rejoin(a: seq<Row>, list: seq<Row>, k: nat)
    requires k <= |list|
    ensures a + list[..k] + list[k..] == a + list
  {
  }

  lemma NextRemaining(s: State, t: State, list: seq<Row>, k: nat)
    requires list == Listing(Remaining(s)) && k <= |list|
    requires t.rows == s.rows && t.collected == s.collected + list[..k]
    ensures Listing(Remaining(t)) == list[k..]
  {
    hide Listing, Selected, Passes;
    ListingLists(Remaining(s));
    if k == 0 {
      assert t.collected == s.collected && list[0..] == list;
    } else {
      AfterCursor(Remaining(s), k);
      var last := list[k - 1];
      assert t.collected[|t.collected| - 1] == last;
      assert last in Elements(list);
      RemainingShrinks(s, last);
    }
  }

  lemma TakenAreRows(s: State, list: seq<Row>, k: nat)
    requires Elements(list) == Remaining(s) && k <= |list| && Elements(s.collected) <= s.rows
    ensures Elements(s.collected + list[..k]) <= s.rows
  {
    forall r | r in s.collected + list[..k] ensures r in s.rows {
      assert r in Elements(s.collected) || r in Elements(list);
    }
  }

  lemma RemainingShrinks(s: State, last: Row)
    requires last in Remaining(s)
    ensures Selected(s.rows, BeforeRow(last.time, last.id)) == Selected(Remaining(s), BeforeRow(last.time, last.id))
  {
  }

  lemma InsertKeepsInv(s: State, row: Row, start: set<Row>, size: nat)
    requires Inv(s, start, size) && Possible(s, Insert(row))
    ensures Inv(s.(rows := s.rows + {row}), start, size)
  {
    assert Remaining(s.(rows := s.rows + {row})) == Remaining(s);
  }

  ghost predicate Run(s: State, steps: seq<Step>, size: int, maxSize: int, t: State)
    decreases |steps|
  {
    if steps == [] then t == s
    else Possible(s, steps[0]) && Run(Apply(s, steps[0], size, maxSize), steps[1..], size, maxSize, t)
  }

  lemma {:induction false} RunKeepsInv(s: State, steps: seq<Step>, size: int, maxSize: int, t: State, start: set<Row>)
    requires Run(s, steps, size, maxSize, t) && Inv(s, start, Width(size, maxSize))
    ensures Inv(t, start, Width(size, maxSize))
    decreases |steps|
  {
    if steps != [] {
      hide Inv, Listing, Width;
      var a := steps[0];
      if a.Fetch? {
        FetchKeepsInv(s, a.page, size, maxSize, start);
      } else {
        InsertKeepsInv(s, a.row, start, Width(size, maxSize));
      }
      hide Possible, Apply;
      RunKeepsInv(Apply(s, a, size, maxSize), steps[1..], size, maxSize, t, start);
    }
  }

  /** After f pages the reader has exactly the first f * size rows of the table as it was at the start, in its
      order, each once; so after enough pages it has the whole table, whatever came in above the cursor. */
  lemma PagesAreTheTable(start: set<Row>, steps: seq<Step>, size: int, maxSize: int, t: State)
    requires RowsOK(start) && Run(State(start, [], 0), steps, size, maxSize, t)
    ensures var width := Width(size, maxSize);
            && Descending(Listing(start)) && Elements(Listing(start)) == start && |Listing(start)| == |start|
            && t.collected == Listing(start)[..Min(t.fetches * width, |start|)]
            && (t.fetches * width >= |start| ==> t.collected == Listing(start))
  {
    var s := State(start, [], 0);
    ListingLists(start);
    assert [] + Listing(start) == Listing(start);
    RunKeepsInv(s, steps, size, maxSize, t, start);
    assert Listing(start)[..|t.collected|] == t.collected;
  }

  /** A cursor without the id skips rows: it agrees with the full cursor exactly when no row of the same time
      is below the last one. */
  lemma TimeCursorAgreesIff(rows: set<Row>, last: Row)
    ensures Selected(rows, BeforeTime(last.time)) == Selected(rows, BeforeRow(last.time, last.id))
            <==> !exists r :: r in rows && r.time == last.time && r.id < last.id
  {
    if exists r :: r in rows && r.time == last.time && r.id < last.id {
      var r :| r in rows && r.time == last.time && r.id < last.id;
      assert r in Selected(rows, BeforeRow(last.time, last.id)) && r !in Selected(rows, BeforeTime(last.time));
    }
  }

  /** Two rows of one time in pages of one: without the id the second is never read. */
  lemma TimeCursorSkips()
    ensures var rows := {Row(1, 10), Row(2, 10)};
            && Listing(rows) == [Row(2, 10), Row(1, 10)]
            && Selected(rows, BeforeRow(10, 2)) == {Row(1, 10)} && Selected(rows, BeforeTime(10)) == {}
  {
    var rows := {Row(1, 10), Row(2, 10)};
    ListingLists(rows);
    var list := [Row(2, 10), Row(1, 10)];
    assert Elements(list) == rows;
    DescendingIsUnique(Listing(rows), list);
  }

  /** Without a time there is no cursor, and without an id the cursor is the time alone. */
  lemma CursorNeedsTime(p: Params, time: int)
    ensures TrimSpace(p.beforeTime) == "" ==> ApplyBeforeCursor(p) == NoCursor
    ensures 0 < time <= MAX_INT64 && p.beforeTime == Decimal(time) && TrimSpace(p.beforeId) == "" ==>
              ApplyBeforeCursor(p) == BeforeTime(time)
  {
    if 0 < time <= MAX_INT64 {
      hide Decimal, TrimSpace;
      ParseReadsDecimal(time);
      DecimalIsTrimmed(time);
    }
  }

  /** The pages 1 to n of a table, one after the other, by their numbers. */
  ghost function NumberedPages(rows: set<Row>, n: nat, size: int, maxSize: int): seq<Row> {
    if n == 0 then []
    else NumberedPages(rows, n - 1, size, maxSize) + Page(rows, Params("", "", n, size), maxSize)
  }

  function Skipped(pages: nat, width: nat): nat {
    pages * width
  }

  lemma NumberedPageIs(rows: set<Row>, n: nat, size: int, maxSize: int)
    requires n > 0
    ensures var list, width := Listing(rows), Width(size, maxSize);
            var from := Min(Skipped(n - 1, width), |list|);
            Page(rows, Params("", "", n, size), maxSize) == list[from..Min(from + width, |list|)]
  {
    hide Listing;
    assert TrimSpace("") == "";
    CursorNeedsTime(Params("", "", n, size), 0);
    assert Selected(rows, NoCursor) == rows;
    assert ParsePage(Params("", "", n, size), maxSize) == PageOptions(n, Width(size, maxSize));
  }

  /** Read by number, the pages of a table that does not change are the table too. */
  lemma {:induction false} NumberedPagesAreTheTable(rows: set<Row>, n: nat, size: int, maxSize: int)
    ensures var list := Listing(rows);
            NumberedPages(rows, n, size, maxSize) == list[..Min(Skipped(n, Width(size, maxSize)), |list|)]
  {
    hide Listing, Page, Width;
    var list, width := Listing(rows), Width(size, maxSize);
    if n > 0 {
      NumberedPagesAreTheTable(rows, n - 1, size, maxSize);
      NumberedPageIs(rows, n, size, maxSize);
      OnePageMore(n - 1, width, |list|);
      var from := Min(Skipped(n - 1, width), |list|);
      assert Min(Skipped(n, width), |list|) == Min(from + width, |list|);
      assert list[..from] + list[from..Min(from + width, |list|)] == list[..Min(from + width, |list|)];
    }
  }
}

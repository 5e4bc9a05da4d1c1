/**
 The cursor pages of the wallet transaction list. Rows come in descending order of (creation time, id);
 a page is the answer to one call over the listing of the caller's filter.
 */
module Pagination {
  import opened Options
  import Ledger = WalletTables

  type Id = nat

  datatype Transaction = Transaction(wallet: Id, direction: Ledger.Direction, status: string, kind: string,
                                     createdAt: int)

  /** A missing field of the filter matches everything. */
  datatype Filter = Filter(direction: Option<Ledger.Direction>, status: Option<string>, kind: Option<string>)

  datatype Row = Row(id: Id, createdAt: int)

  predicate Matches(t: Transaction, wallet: Id, filter: Filter) {
    && t.wallet == wallet
    && (filter.direction.Some? ==> t.direction == filter.direction.value)
    && (filter.status.Some? ==> t.status == filter.status.value)
    && (filter.kind.Some? ==> t.kind == filter.kind.value)
  }

  // ----- the listing

  /** Newest first, and by descending id among equal times. */
  predicate Before(a: Row, b: Row) {
    a.createdAt > b.createdAt || (a.createdAt == b.createdAt && a.id > b.id)
  }

  ghost predicate IsListing(rows: seq<Row>, table: map<Id, Transaction>, wallet: Id, filter: Filter) {
    && (forall i, j | 0 <= i < j < |rows| :: Before(rows[i], rows[j]))
    && (forall r :: r in rows <==> IsRow(r, table, wallet, filter))
  }

  predicate IsRow(r: Row, table: map<Id, Transaction>, wallet: Id, filter: Filter) {
    r.id in table && r.createdAt == table[r.id].createdAt && Matches(table[r.id], wallet, filter)
  }

  /** Without a filter every transaction of the wallet is listed; each given field keeps exactly those that have it. */
  lemma FiltersNarrow(r: Row, table: map<Id, Transaction>, wallet: Id, filter: Filter)
    ensures IsRow(r, table, wallet, Filter(None, None, None)) <==>
            r.id in table && table[r.id].wallet == wallet && table[r.id].createdAt == r.createdAt
    ensures IsRow(r, table, wallet, filter) <==>
            && IsRow(r, table, wallet, Filter(None, None, None))
            && (filter.direction.None? || filter.direction.value == table[r.id].direction)
            && (filter.status.None? || filter.status.value == table[r.id].status)
            && (filter.kind.None? || filter.kind.value == table[r.id].kind)
  {
  }

  predicate DistinctIds(rows: seq<Row>) {
    forall i, j | 0 <= i < j < |rows| :: rows[i].id != rows[j].id
  }

  lemma ListingHasDistinctIds(rows: seq<Row>, table: map<Id, Transaction>, wallet: Id, filter: Filter)
    requires IsListing(rows, table, wallet, filter)
    ensures DistinctIds(rows)
  {
    forall i, j | 0 <= i < j < |rows| ensures rows[i].id != rows[j].id {
      assert IsRow(rows[i], table, wallet, filter) && IsRow(rows[j], table, wallet, filter);
      assert Before(rows[i], rows[j]);
    }
  }

  ghost predicate Sorted(rows: seq<Row>) { forall i, j | 0 <= i < j < |rows| :: Before(rows[i], rows[j]) }

  /** An ordered sequence is determined by its rows, so a table has at most one listing for a filter. */
  lemma {:induction false} SortedIsUnique(a: seq<Row>, b: seq<Row>)
    requires Sorted(a) && Sorted(b) && forall r :: r in a <==> r in b
    ensures a == b
  {
    SomeRow(a);
    SomeRow(b);
    if a != [] {
      TailRows(a, b[0]);
      TailRows(b, a[0]);
      assert a[0] == b[0];
      SortedIsUnique(a[1..], b[1..]);
    }
  }

  lemma SomeRow(a: seq<Row>)
    ensures a == [] || a[0] in a
  {
  }

  lemma TailRows(a: seq<Row>, b: Row)
    requires Sorted(a) && a != []
    ensures forall r :: r in a[1..] <==> r in a && r != a[0]
    ensures b in a ==> b == a[0] || Before(a[0], b)
  {
    assert a == [a[0]] + a[1..];
    forall r | r in a[1..] ensures Before(a[0], r) {
      var k :| 0 <= k < |a[1..]| && a[1..][k] == r;
      assert Before(a[0], a[k + 1]);
    }
  }

  lemma ListingIsUnique(a: seq<Row>, b: seq<Row>, table: map<Id, Transaction>, wallet: Id, filter: Filter)
    requires IsListing(a, table, wallet, filter) && IsListing(b, table, wallet, filter)
    ensures a == b
  {
    SortedIsUnique(a, b);
  }

  function Insert(rows: seq<Row>, r: Row): seq<Row> {
    if rows == [] then [r]
    else if Before(r, rows[0]) then [r] + rows
    else [rows[0]] + Insert(rows[1..], r)
  }

  lemma {:induction false} InsertSorts(rows: seq<Row>, r: Row)
    requires Sorted(rows) && r !in rows
    ensures Sorted(Insert(rows, r)) && forall x :: x in Insert(rows, r) <==> x in rows || x == r
  {
    if rows != [] {
      TailRows(rows, r);
      assert rows == [rows[0]] + rows[1..];
      if Before(r, rows[0]) {
        forall x | x in rows ensures Before(r, x) { TailRows(rows, x); }
      } else {
        InsertSorts(rows[1..], r);
        var rest := Insert(rows[1..], r);
        forall x | x in rest ensures Before(rows[0], x) { TailRows(rows, x); }
      }
    }
  }

  /** Every table has a listing for every filter. */
  lemma {:induction false} ListingExists(table: map<Id, Transaction>, wallet: Id, filter: Filter)
    returns (rows: seq<Row>)
    ensures IsListing(rows, table, wallet, filter)
    decreases |table|
  {
    if table == map[] {
      rows := [];
    } else {
      var id :| id in table;
      var rest := table - {id};
      var row := Row(id, table[id].createdAt);
      rows := ListingExists(rest, wallet, filter);
      assert forall r | r in rows :: IsRow(r, rest, wallet, filter) && r.id != id;
      if Matches(table[id], wallet, filter) {
        InsertSorts(rows, row);
        rows := Insert(rows, row);
      }
      forall r ensures r in rows <==> IsRow(r, table, wallet, filter) {
        if r.id != id { assert IsRow(r, rest, wallet, filter) <==> IsRow(r, table, wallet, filter); }
      }
    }
  }

  // ----- one call

  datatype Page = Page(items: seq<Row>, nextCursor: Option<Id>, hasMore: bool)

  const DEFAULT_TAKE := 20
  const MAX_TAKE := 50

  /** Any requested size is brought into 1..50. */
  function PageSize(take: Option<int>): (size: nat)
    ensures 1 <= size <= MAX_TAKE
    ensures take.Some? && 1 <= take.value <= 50 ==> size == take.value
    ensures take.Some? && take.value < 1 ==> size == 1
    ensures take.Some? && take.value > 50 ==> size == 50
    ensures take.None? ==> size == 20
  {
    var wanted := if take.Some? then take.value else DEFAULT_TAKE;
    var atLeastOne := if wanted > 1 then wanted else 1;
    if atLeastOne < MAX_TAKE then atLeastOne else MAX_TAKE
  }

  /** Where the cursor's row stands; the length of the listing when it is not there. */
  function Position(rows: seq<Row>, id: Id): (i: nat)
    ensures i <= |rows| && (i < |rows| ==> rows[i].id == id)
    ensures forall j | 0 <= j < i :: rows[j].id != id
  {
    if rows == [] then 0
    else if rows[0].id == id then 0
    else 1 + Position(rows[1..], id)
  }

  function StartOf(rows: seq<Row>, cursor: Option<Id>): nat {
    if cursor.None? then 0 else Position(rows, cursor.value) + 1
  }

  /** The rows from the cursor's row on, without that row. */
  function After(rows: seq<Row>, cursor: Option<Id>): seq<Row> {
    if StartOf(rows, cursor) <= |rows| then rows[StartOf(rows, cursor)..] else []
  }

  /** The page is the next stretch of the listing, and says truly whether rows are left after it. */
  ghost predicate IsPage(page: Page, rows: seq<Row>, start: nat, size: nat) {
    && start + |page.items| <= |rows|
    && page.items == rows[start..start + |page.items|] && |page.items| <= size
    && page.hasMore == (start + |page.items| < |rows|)
    && (page.hasMore ==> |page.items| == size && size > 0 && page.nextCursor == Some(rows[start + size - 1].id))
    && (!page.hasMore ==> page.nextCursor.None?)
  }

  /** One row more than the page holds is asked for, to see whether any are left. */
  function Paged(rest: seq<Row>, size: nat): Page
    requires size > 0
  {
    var found := if |rest| <= size + 1 then rest else rest[..size + 1];
    var hasMore := |found| > size;
    var items := if hasMore then found[..size] else found;
    Page(items, if hasMore then Some(items[|items| - 1].id) else None, hasMore)
  }

  function PageOf(rows: seq<Row>, take: Option<int>, cursor: Option<Id>): Page {
    Paged(After(rows, cursor), PageSize(take))
  }

  lemma PageIsNextStretch(rows: seq<Row>, take: Option<int>, cursor: Option<Id>)
    requires StartOf(rows, cursor) <= |rows|
    ensures IsPage(PageOf(rows, take, cursor), rows, StartOf(rows, cursor), PageSize(take))
  {
  }

  lemma CursorComesNext(page: Page, rows: seq<Row>, start: nat, size: nat)
    requires IsPage(page, rows, start, size) && page.hasMore && DistinctIds(rows)
    ensures StartOf(rows, page.nextCursor) == start + |page.items| > start
  {
    var last := start + size - 1;
    var found := Position(rows, rows[last].id);
    assert found <= last;
  }

  // ----- following the cursors

  /** The pages a caller gets from a cursor on, each with a page size of its own, until there are no more. */
  function Follow(rows: seq<Row>, takes: nat -> Option<int>, call: nat, cursor: Option<Id>): seq<Row>
    requires DistinctIds(rows) && StartOf(rows, cursor) <= |rows|
    decreases |rows| - StartOf(rows, cursor)
  {
    var page := PageOf(rows, takes(call), cursor);
    PageIsNextStretch(rows, takes(call), cursor);
    if !page.hasMore then page.items
    else
      CursorComesNext(page, rows, StartOf(rows, cursor), PageSize(takes(call)));
      page.items + Follow(rows, takes, call + 1, page.nextCursor)
  }

  lemma {:induction false} PagesMakeUpTheRest(rows: seq<Row>, takes: nat -> Option<int>, call: nat, cursor: Option<Id>)
    requires DistinctIds(rows) && StartOf(rows, cursor) <= |rows|
    ensures Follow(rows, takes, call, cursor) == rows[StartOf(rows, cursor)..]
    decreases |rows| - StartOf(rows, cursor)
  {
    hide PageOf, StartOf, DistinctIds;
    var page := PageOf(rows, takes(call), cursor);
    var start := StartOf(rows, cursor);
    PageIsNextStretch(rows, takes(call), cursor);
    if page.hasMore {
      CursorComesNext(page, rows, start, PageSize(takes(call)));
      PagesMakeUpTheRest(rows, takes, call + 1, page.nextCursor);
      assert page.items + rows[start + |page.items|..] == rows[start..];
    }
  }

  /** Whatever page sizes are asked for, the pages make up the listing: no row is lost, repeated or misplaced. */
  lemma PagesMakeUpTheListing(rows: seq<Row>, table: map<Id, Transaction>, wallet: Id, filter: Filter,
                              takes: nat -> Option<int>)
    requires IsListing(rows, table, wallet, filter)
    ensures DistinctIds(rows) && Follow(rows, takes, 0, None) == rows
  {
    ListingHasDistinctIds(rows, table, wallet, filter);
    PagesMakeUpTheRest(rows, takes, 0, None);
  }

  lemma PositionShifts(newer: seq<Row>, rows: seq<Row>, id: Id)
    requires DistinctIds(newer + rows) && Position(rows, id) < |rows|
    ensures Position(newer + rows, id) == |newer| + Position(rows, id)
  {
    var all, i := newer + rows, Position(rows, id);
    assert all[|newer| + i] == rows[i];
    var p := Position(all, id);
    assert p <= |newer| + i;
    OneIdOnePlace(all, p, |newer| + i);
  }

  lemma OneIdOnePlace(rows: seq<Row>, i: nat, j: nat)
    requires DistinctIds(rows) && i < |rows| && j < |rows| && rows[i].id == rows[j].id
    ensures i == j
  {
  }

  lemma DropPrefix(newer: seq<Row>, rows: seq<Row>, k: nat)
    requires k <= |rows|
    ensures (newer + rows)[|newer| + k..] == rows[k..]
  {
  }

  lemma AfterShifts(newer: seq<Row>, rows: seq<Row>, cursor: Id)
    requires DistinctIds(newer + rows) && Position(rows, cursor) < |rows|
    ensures After(newer + rows, Some(cursor)) == After(rows, Some(cursor))
  {
    PositionShifts(newer, rows, cursor);
    assert StartOf(newer + rows, Some(cursor)) == |newer| + StartOf(rows, Some(cursor)) <= |newer + rows|;
    assert StartOf(rows, Some(cursor)) == Position(rows, cursor) + 1;
    hide Position, DistinctIds, StartOf;
    DropPrefix(newer, rows, Position(rows, cursor) + 1);
  }

  lemma PrefixDoesNotDisturb(newer: seq<Row>, rows: seq<Row>, take: Option<int>, cursor: Id)
    requires DistinctIds(newer + rows) && Position(rows, cursor) < |rows|
    ensures PageOf(newer + rows, take, Some(cursor)) == PageOf(rows, take, Some(cursor))
  {
    hide Position, DistinctIds, After, Paged, PageSize;
    AfterShifts(newer, rows, cursor);
  }

  /** The second table has every transaction of the first, and its other ones were made later. */
  ghost predicate Extends(table: map<Id, Transaction>, later: map<Id, Transaction>) {
    && (forall id | id in table :: id in later && later[id] == table[id])
    && (forall id, other | id in later && id !in table && other in table ::
         later[id].createdAt > table[other].createdAt)
  }

  /** Later transactions come first: the new listing is the old one after a listing of the new rows. */
  lemma LaterRowsComeFirst(rows: seq<Row>, all: seq<Row>, table: map<Id, Transaction>, later: map<Id, Transaction>,
                           wallet: Id, filter: Filter)
    returns (newer: seq<Row>)
    requires IsListing(rows, table, wallet, filter) && IsListing(all, later, wallet, filter) && Extends(table, later)
    ensures all == newer + rows
  {
    newer := ListingExists(later - table.Keys, wallet, filter);
    assert forall r | r in rows :: IsRow(r, table, wallet, filter);
    assert forall r | r in newer :: IsRow(r, later - table.Keys, wallet, filter);
    forall i, j | 0 <= i < j < |newer + rows| ensures Before((newer + rows)[i], (newer + rows)[j]) {
      if i < |newer| <= j { assert newer[i] in newer && rows[j - |newer|] in rows; }
    }
    forall r ensures r in newer + rows <==> IsRow(r, later, wallet, filter) {
      assert IsRow(r, later, wallet, filter) <==>
             IsRow(r, table, wallet, filter) || IsRow(r, later - table.Keys, wallet, filter);
    }
    ListingIsUnique(all, newer + rows, later, wallet, filter);
  }

  /** Transactions made while a caller is paging do not disturb the pages still to come. */
  lemma NewerRowsDoNotDisturb(rows: seq<Row>, all: seq<Row>, table: map<Id, Transaction>, later: map<Id, Transaction>,
                              wallet: Id, filter: Filter, take: Option<int>, cursor: Id)
    requires IsListing(rows, table, wallet, filter) && IsListing(all, later, wallet, filter) && Extends(table, later)
    requires exists r | r in rows :: r.id == cursor
    ensures PageOf(all, take, Some(cursor)) == PageOf(rows, take, Some(cursor))
  {
    var newer := LaterRowsComeFirst(rows, all, table, later, wallet, filter);
    ListingHasDistinctIds(all, later, wallet, filter);
    assert Position(rows, cursor) < |rows|;
    hide IsListing, Extends, Position, DistinctIds, PageOf;
    PrefixDoesNotDisturb(newer, rows, take, cursor);
  }
}

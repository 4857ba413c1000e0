/**
 Keyset paging of search results: one query returns the rows behind a cursor in the full order, one
 row more than the page shows, and the cursor of the last shown row if that extra row exists.
 */
module Paging {
  import opened Prelude

  /** A result row: the document id and the value it is sorted by, which may be null. */
  datatype Row = Row(id: int, value: Option<int>)

  datatype Cursor = Cursor(id: int, value: Option<int>)

  datatype Page = Page(items: seq<Row>, next: Option<Cursor>)

  // ---------------------------------------------------------------------------
  // The order and the cursor predicate
  // ---------------------------------------------------------------------------

  /** `ORDER BY value ASC|DESC NULLS LAST, id`. */
  predicate Less(a: Row, b: Row, descending: bool) {
    match (a.value, b.value)
    case (None, None) => a.id < b.id
    case (None, Some(_)) => false
    case (Some(_), None) => true
    case (Some(x), Some(y)) => (if descending then x > y else x < y) || (x == y && a.id < b.id)
  }

  /** The `WHERE` clause a cursor adds; a comparison with a null column is not true. */
  predicate Behind(row: Row, cursor: Cursor, descending: bool) {
    match cursor.value
    case None => row.value.None? && row.id > cursor.id
    case Some(value) =>
      || row.value.None?
      || (row.value.Some? && if descending then row.value.value < value else row.value.value > value)
      || (row.value == Some(value) && row.id > cursor.id)
  }

  predicate Passes(row: Row, cursor: Option<Cursor>, descending: bool) {
    cursor.None? || Behind(row, cursor.value, descending)
  }

  function Filter(rows: seq<Row>, cursor: Option<Cursor>, descending: bool): seq<Row> {
    if rows == [] then []
    else (if Passes(rows[0], cursor, descending) then [rows[0]] else []) + Filter(rows[1..], cursor, descending)
  }

  function Insert(row: Row, sorted: seq<Row>, descending: bool): seq<Row> {
    if sorted == [] || Less(row, sorted[0], descending) then [row] + sorted
    else [sorted[0]] + Insert(row, sorted[1..], descending)
  }

  /** The rows in the full order. */
  function Sort(rows: seq<Row>, descending: bool): seq<Row> {
    if rows == [] then [] else Insert(rows[0], Sort(rows[1..], descending), descending)
  }

  /** `... WHERE after ORDER BY ... OFFSET offset LIMIT limit`. */
  function Query(rows: seq<Row>, cursor: Option<Cursor>, descending: bool, offset: nat, limit: nat): seq<Row> {
    var all := Sort(Filter(rows, cursor, descending), descending);
    var behind := all[Clip(offset, |all|)..];
    behind[..Clip(limit, |behind|)]
  }

  function CursorOf(row: Row): Cursor {
    Cursor(row.id, row.value)
  }

  /** Ids are unique in a result set. */
  ghost predicate UniqueIds(rows: seq<Row>) {
    forall i, j :: 0 <= i < j < |rows| ==> !SameId(rows, i, j)
  }

  ghost predicate SameId(rows: seq<Row>, i: nat, j: nat)
    requires i < |rows| && j < |rows|
  {
    rows[i].id == rows[j].id
  }

  ghost predicate Ascending(s: seq<Row>, descending: bool) {
    forall i, j :: 0 <= i < j < |s| ==> Less(s[i], s[j], descending)
  }

  ghost predicate SameRows(a: seq<Row>, b: seq<Row>) {
    forall row :: row in a <==> row in b
  }

  // ---------------------------------------------------------------------------
  // Sorting
  // ---------------------------------------------------------------------------

  lemma {:induction false} InsertKeeps(row: Row, sorted: seq<Row>, descending: bool)
    requires Ascending(sorted, descending) && forall i :: 0 <= i < |sorted| ==> sorted[i].id != row.id
    ensures var r := Insert(row, sorted, descending);
            && Ascending(r, descending) && |r| == |sorted| + 1
            && forall x :: x in r <==> x == row || x in sorted
  {
    var r := Insert(row, sorted, descending);
    if sorted == [] || Less(row, sorted[0], descending) {
      forall i, j | 0 <= i < j < |r| ensures Less(r[i], r[j], descending) {
        if i == 0 && j > 1 {
          assert Less(sorted[0], sorted[j - 1], descending);
        } else if i > 0 {
          assert Less(sorted[i - 1], sorted[j - 1], descending);
        }
      }
    } else {
      var rest := sorted[1..];
      forall i, j | 0 <= i < j < |rest| ensures Less(rest[i], rest[j], descending) {
        assert Less(sorted[i + 1], sorted[j + 1], descending);
      }
      InsertKeeps(row, rest, descending);
      var tail := Insert(row, rest, descending);
      assert Less(sorted[0], row, descending);
      forall i, j | 0 <= i < j < |r| ensures Less(r[i], r[j], descending) {
        if i == 0 {
          assert tail[j - 1] in tail;
          if tail[j - 1] in rest {
            var k :| 0 <= k < |rest| && rest[k] == tail[j - 1];
            assert Less(sorted[0], sorted[k + 1], descending);
          }
        } else {
          assert Less(tail[i - 1], tail[j - 1], descending);
        }
      }
      assert sorted == [sorted[0]] + rest && r == [sorted[0]] + tail;
    }
  }

  lemma {:induction false} TailUnique(rows: seq<Row>)
    requires rows != [] && UniqueIds(rows)
    ensures UniqueIds(rows[1..]) && forall i :: 0 <= i < |rows[1..]| ==> rows[1..][i].id != rows[0].id
  {
    var r := rows[1..];
    forall i, j | 0 <= i < j < |r| ensures !SameId(r, i, j) {
      assert !SameId(rows, i + 1, j + 1);
    }
    forall i | 0 <= i < |r| ensures r[i].id != rows[0].id {
      assert !SameId(rows, 0, i + 1);
    }
  }

  /** The full order lists the rows of the result, each once, in strictly ascending order. */
  lemma {:induction false} SortIsOrder(rows: seq<Row>, descending: bool)
    requires UniqueIds(rows)
    ensures var s := Sort(rows, descending); Ascending(s, descending) && |s| == |rows| && SameRows(s, rows)
  {
    if rows != [] {
      TailUnique(rows);
      SortIsOrder(rows[1..], descending);
      var s := Sort(rows[1..], descending);
      forall i | 0 <= i < |s| ensures s[i].id != rows[0].id {
        assert s[i] in rows[1..];
      }
      InsertKeeps(rows[0], s, descending);
      assert rows == [rows[0]] + rows[1..];
    }
  }

  /**
   Of two rows the later one has the larger value, or the smaller one in descending order; rows without a
   value come after all others, and the ids break ties.
   */
  lemma {:induction false} OrderMeaning(rows: seq<Row>, descending: bool, i: nat, j: nat)
    requires UniqueIds(rows) && i < j < |Sort(rows, descending)|
    ensures var s := Sort(rows, descending);
            && (s[i].value == None ==> s[j].value == None)
            && (s[i].value != None && s[j].value != None ==>
                  if descending then s[i].value.value >= s[j].value.value else s[i].value.value <= s[j].value.value)
            && (s[i].value == s[j].value ==> s[i].id < s[j].id)
  {
    SortIsOrder(rows, descending);
    hide Sort;
    assert Less(Sort(rows, descending)[i], Sort(rows, descending)[j], descending);
  }

  /** A strictly ascending sequence is determined by its rows. */
  lemma {:induction false} AscendingIsUnique(a: seq<Row>, b: seq<Row>, descending: bool)
    requires Ascending(a, descending) && Ascending(b, descending) && SameRows(a, b)
    ensures a == b
  {
    assert b != [] ==> b[0] in a;
    if a == [] {
    } else {
      assert a[0] in b && b[0] in a;
      FirstIsLeast(a, b[0], descending);
      FirstIsLeast(b, a[0], descending);
      assert a[0] == b[0];
      TailRows(a, b, descending);
      AscendingIsUnique(a[1..], b[1..], descending);
      assert a == [a[0]] + a[1..] && b == [b[0]] + b[1..];
    }
  }

  lemma {:induction false} FirstIsLeast(s: seq<Row>, x: Row, descending: bool)
    requires Ascending(s, descending) && x in s
    ensures x == s[0] || Less(s[0], x, descending)
  {
  }

  lemma {:induction false} TailRows(a: seq<Row>, b: seq<Row>, descending: bool)
    requires a != [] && b != [] && a[0] == b[0]
    requires Ascending(a, descending) && Ascending(b, descending) && SameRows(a, b)
    ensures SameRows(a[1..], b[1..]) && Ascending(a[1..], descending) && Ascending(b[1..], descending)
  {
    AscendingTail(a, descending);
    AscendingTail(b, descending);
    forall row ensures row in a[1..] <==> row in b[1..] {
      assert row in a <==> row == a[0] || row in a[1..] by { assert a == [a[0]] + a[1..]; }
      assert row in b <==> row == b[0] || row in b[1..] by { assert b == [b[0]] + b[1..]; }
    }
  }

  lemma {:induction false} AscendingTail(s: seq<Row>, descending: bool)
    requires s != [] && Ascending(s, descending)
    ensures Ascending(s[1..], descending) && s[0] !in s[1..]
  {
  }

  lemma {:induction false} FilterMeaning(rows: seq<Row>, cursor: Option<Cursor>, descending: bool)
    requires UniqueIds(rows)
    ensures var f := Filter(rows, cursor, descending);
            && UniqueIds(f) && |f| <= |rows|
            && forall row :: row in f <==> row in rows && Passes(row, cursor, descending)
  {
    if rows != [] {
      TailUnique(rows);
      FilterMeaning(rows[1..], cursor, descending);
      var f, g := Filter(rows, cursor, descending), Filter(rows[1..], cursor, descending);
      assert rows == [rows[0]] + rows[1..];
      if Passes(rows[0], cursor, descending) {
        assert f == [rows[0]] + g;
        forall i, j | 0 <= i < j < |f| ensures !SameId(f, i, j) {
          if i == 0 {
            assert g[j - 1] in rows[1..];
          } else {
            assert !SameId(g, i - 1, j - 1);
          }
        }
      } else {
        assert f == g;
      }
    }
  }

  /** What the `WHERE` clause of a cursor keeps, in order, is what follows the cursor's row in the full order. */
  lemma {:induction false} CursorCutsTheOrder(rows: seq<Row>, k: nat, descending: bool)
    requires UniqueIds(rows) && 0 < k <= |Sort(rows, descending)|
    ensures var all := Sort(rows, descending);
            Sort(Filter(rows, Some(CursorOf(all[k - 1])), descending), descending) == all[k..]
  {
    var all := Sort(rows, descending);
    var cursor := Some(CursorOf(all[k - 1]));
    var kept := Filter(rows, cursor, descending);
    SortIsOrder(rows, descending);
    FilterMeaning(rows, cursor, descending);
    SortIsOrder(kept, descending);
    forall i, j | 0 <= i < j < |all[k..]| ensures Less(all[k..][i], all[k..][j], descending) {
      assert Less(all[k + i], all[k + j], descending);
    }
    forall row ensures row in Sort(kept, descending) <==> row in all[k..] {
      SuffixMeaning(all, k, row, descending);
      assert row in Sort(kept, descending) <==> row in kept;
      assert row in all <==> row in rows;
    }
    AscendingIsUnique(Sort(kept, descending), all[k..], descending);
  }

  lemma {:induction false} SuffixMeaning(all: seq<Row>, k: nat, row: Row, descending: bool)
    requires Ascending(all, descending) && 0 < k <= |all|
    ensures row in all[k..] <==> row in all && Behind(row, CursorOf(all[k - 1]), descending)
  {
  }

  // ---------------------------------------------------------------------------
  // One page
  // ---------------------------------------------------------------------------

  /** The paging part of `execute_search`. */
  method ExecuteSearch(rows: seq<Row>, cursor: Option<Cursor>, descending: bool, pageSize: nat, offset: nat)
    returns (page: Page)
    requires pageSize > 0
    ensures var all := Sort(Filter(rows, cursor, descending), descending);
            var behind := all[Clip(offset, |all|)..];
            && page.items == behind[..Clip(pageSize, |behind|)]
            && (page.next.Some? <==> |behind| > pageSize)
            && (page.next.Some? ==> page.next.value == CursorOf(behind[pageSize - 1]))
    ensures offset == 0 ==> page == PageAt(rows, cursor, descending, pageSize)
  {
    var fetched := Query(rows, cursor, descending, offset, pageSize + 1);
    var selected := fetched[..Clip(pageSize, |fetched|)];
    var more := |fetched| > pageSize;
    var next: Option<Cursor> := None;
    if more {
      next := Some(CursorOf(selected[|selected| - 1]));
    }
    page := Page(selected, next);
  }

  /** The page as a value. */
  function PageAt(rows: seq<Row>, cursor: Option<Cursor>, descending: bool, pageSize: nat): Page
    requires pageSize > 0
  {
    var all := Sort(Filter(rows, cursor, descending), descending);
    Page(all[..Clip(pageSize, |all|)], if |all| > pageSize then Some(CursorOf(all[pageSize - 1])) else None)
  }

  lemma {:induction false} NoCursorKeepsAll(rows: seq<Row>, descending: bool)
    ensures Filter(rows, None, descending) == rows
  {
    if rows != [] {
      NoCursorKeepsAll(rows[1..], descending);
    }
  }

  /** The cursor stands behind the first `k` rows of the full order. */
  ghost predicate Stands(rows: seq<Row>, cursor: Option<Cursor>, descending: bool, k: nat) {
    var all := Sort(rows, descending);
    k <= |all| && if cursor.None? then k == 0 else k > 0 && cursor.value == CursorOf(all[k - 1])
  }

  /** A page shows the rows of the full order from its cursor on, and its next cursor stands behind them. */
  lemma {:induction false} PageIsSlice(rows: seq<Row>, cursor: Option<Cursor>, descending: bool, pageSize: nat, k: nat)
    requires UniqueIds(rows) && pageSize > 0 && Stands(rows, cursor, descending, k)
    ensures var all := Sort(rows, descending);
            var page := PageAt(rows, cursor, descending, pageSize);
            && |all| == |rows|
            && page.items == all[k..k + Clip(pageSize, |all| - k)]
            && (page.next.Some? <==> |all| > k + pageSize)
            && (page.next.Some? ==> Stands(rows, page.next, descending, k + pageSize))
  {
    hide Sort, Filter;
    var all := Sort(rows, descending);
    SortIsOrder(rows, descending);
    if cursor.None? {
      NoCursorKeepsAll(rows, descending);
    } else {
      CursorCutsTheOrder(rows, k, descending);
    }
    assert Sort(Filter(rows, cursor, descending), descending) == all[k..];
  }

  // ---------------------------------------------------------------------------
  // Following the cursors
  // ---------------------------------------------------------------------------

  /** The pages a client gets from a cursor that stands behind the first `k` rows, until there is no next one. */
  ghost function Follow(rows: seq<Row>, cursor: Option<Cursor>, descending: bool, pageSize: nat, k: nat): seq<seq<Row>>
    requires UniqueIds(rows) && pageSize > 0 && Stands(rows, cursor, descending, k)
    decreases |rows| - k
  {
    var page := PageAt(rows, cursor, descending, pageSize);
    PageIsSlice(rows, cursor, descending, pageSize, k);
    if page.next.None? then [page.items]
    else [page.items] + Follow(rows, page.next, descending, pageSize, k + pageSize)
  }

  function Concat(pages: seq<seq<Row>>): seq<Row> {
    if pages == [] then [] else pages[0] + Concat(pages[1..])
  }

  /** `n` rows fill `p` pages: `p` is one for an empty result, and `n / size` rounded up otherwise. */
  ghost predicate Fills(n: nat, p: nat, size: nat) {
    p >= 1 && n <= p * size && (p > 1 ==> (p - 1) * size < n)
  }

  lemma {:induction false} OnePageMore(n: nat, p: nat, size: nat)
    requires size > 0 && n > size && Fills(n - size, p, size)
    ensures Fills(n, p + 1, size)
  {
  }

  lemma {:induction false} FollowedPages(rows: seq<Row>, cursor: Option<Cursor>, descending: bool, pageSize: nat,
                                         k: nat)
    requires UniqueIds(rows) && pageSize > 0 && Stands(rows, cursor, descending, k)
    ensures var pages := Follow(rows, cursor, descending, pageSize, k);
            && |Sort(rows, descending)| == |rows|
            && Concat(pages) == Sort(rows, descending)[k..]
            && Fills(|rows| - k, |pages|, pageSize)
            && (forall i :: 0 <= i < |pages| - 1 ==> |pages[i]| == pageSize)
    decreases |rows| - k
  {
    hide Sort, Filter, PageAt, Stands;
    var all := Sort(rows, descending);
    var page := PageAt(rows, cursor, descending, pageSize);
    PageIsSlice(rows, cursor, descending, pageSize, k);
    var pages := Follow(rows, cursor, descending, pageSize, k);
    if page.next.None? {
      assert Concat([page.items]) == page.items + Concat([]);
    } else {
      FollowedPages(rows, page.next, descending, pageSize, k + pageSize);
      var rest := Follow(rows, page.next, descending, pageSize, k + pageSize);
      assert pages[1..] == rest;
      assert all[k..k + pageSize] + all[k + pageSize..] == all[k..];
      OnePageMore(|rows| - k, |rest|, pageSize);
    }
  }

  /**
   Following the cursors from the first page lists exactly the full order, with every page but the
   last one full, in one page for an empty result and in `n / size` pages rounded up otherwise.
   */
  lemma {:induction false} CursorsListTheOrder(rows: seq<Row>, descending: bool, pageSize: nat)
    requires UniqueIds(rows) && pageSize > 0
    ensures var pages := Follow(rows, None, descending, pageSize, 0);
            && Concat(pages) == Sort(rows, descending)
            && Ascending(Concat(pages), descending) && SameRows(Concat(pages), rows) && |Concat(pages)| == |rows|
            && Fills(|rows|, |pages|, pageSize)
            && (forall i :: 0 <= i < |pages| - 1 ==> |pages[i]| == pageSize)
  {
    FollowedPages(rows, None, descending, pageSize, 0);
    SortIsOrder(rows, descending);
    assert Sort(rows, descending)[0..] == Sort(rows, descending);
  }

  /** The pages of the older interface, addressed by offset, are the pages of the cursor chain. */
  lemma {:induction false} OffsetsAgreeWithCursors(rows: seq<Row>, cursor: Option<Cursor>, descending: bool,
                                                   pageSize: nat, k: nat)
    requires UniqueIds(rows) && pageSize > 0 && Stands(rows, cursor, descending, k)
    ensures PageAt(rows, cursor, descending, pageSize).items == Query(rows, None, descending, k, pageSize)
  {
    hide Sort, Filter;
    PageIsSlice(rows, cursor, descending, pageSize, k);
    NoCursorKeepsAll(rows, descending);
  }

  // ---------------------------------------------------------------------------
  // Results that change between the pages
  // ---------------------------------------------------------------------------

  /** The cursor may have lost its row: what the page shows is still decided by the cursor predicate alone. */
  lemma {:induction false} PageOfAnySet(rows: seq<Row>, cursor: Option<Cursor>, descending: bool, pageSize: nat,
                                        row: Row)
    requires UniqueIds(rows) && pageSize > 0
    ensures var page := PageAt(rows, cursor, descending, pageSize);
            && Ascending(page.items, descending)
            && (page.next.Some? && Behind(row, page.next.value, descending) ==> Passes(row, cursor, descending))
            && (row in page.items <==> row in rows && Passes(row, cursor, descending)
                                       && !(page.next.Some? && Behind(row, page.next.value, descending)))
  {
    var kept := Filter(rows, cursor, descending);
    FilterMeaning(rows, cursor, descending);
    SortIsOrder(kept, descending);
    hide Sort, Filter, SameRows;
    assert SameRows(Sort(kept, descending), kept);
    var all := Sort(kept, descending);
    assert row in all <==> row in kept by { SameRowsMeaning(all, kept, row); }
    if |all| > pageSize {
      SuffixMeaning(all, pageSize, row, descending);
      if Behind(row, CursorOf(all[pageSize - 1]), descending) {
        LastPasses(rows, cursor, descending, all, pageSize, row);
      }
      PrefixSuffix(all, pageSize, row, descending);
    }
  }

  lemma {:induction false} SameRowsMeaning(a: seq<Row>, b: seq<Row>, row: Row)
    requires SameRows(a, b)
    ensures row in a <==> row in b
  {
  }

  /** What lies behind the last row of a page lies behind the cursor the page was read with. */
  lemma {:induction false} LastPasses(rows: seq<Row>, cursor: Option<Cursor>, descending: bool, all: seq<Row>, k: nat,
                                      row: Row)
    requires UniqueIds(rows) && SameRows(all, Filter(rows, cursor, descending)) && 0 < k <= |all|
    requires Behind(row, CursorOf(all[k - 1]), descending)
    ensures Passes(row, cursor, descending)
  {
    FilterMeaning(rows, cursor, descending);
    assert all[k - 1] in all;
  }

  lemma {:induction false} PrefixSuffix(all: seq<Row>, k: nat, row: Row, descending: bool)
    requires Ascending(all, descending) && k <= |all|
    ensures row in all[..k] <==> row in all && row !in all[k..]
  {
  }

  function Occurrences(items: seq<Row>, row: Row): nat {
    if items == [] then 0 else (if items[0] == row then 1 else 0) + Occurrences(items[1..], row)
  }

  lemma {:induction false} OccursOnce(items: seq<Row>, row: Row, descending: bool)
    requires Ascending(items, descending)
    ensures Occurrences(items, row) == if row in items then 1 else 0
  {
    if items != [] {
      AscendingTail(items, descending);
      OccursOnce(items[1..], row, descending);
      assert items == [items[0]] + items[1..];
    }
  }

  /** How often a row is shown by pages taken one after the other from result sets that may differ. */
  function Shown(sets: seq<seq<Row>>, cursor: Option<Cursor>, descending: bool, pageSize: nat, row: Row): nat
    requires pageSize > 0
  {
    if sets == [] then 0
    else
      var page := PageAt(sets[0], cursor, descending, pageSize);
      Occurrences(page.items, row)
      + if page.next.None? then 0 else Shown(sets[1..], page.next, descending, pageSize, row)
  }

  /** The chain of pages comes to its end within the given result sets. */
  predicate Ends(sets: seq<seq<Row>>, cursor: Option<Cursor>, descending: bool, pageSize: nat)
    requires pageSize > 0
  {
    sets != [] &&
      var page := PageAt(sets[0], cursor, descending, pageSize);
      page.next.None? || Ends(sets[1..], page.next, descending, pageSize)
  }

  ghost predicate EachUnique(sets: seq<seq<Row>>) {
    forall i :: 0 <= i < |sets| ==> UniqueIds(sets[i])
  }

  /** Paging while the results change never shows a row twice, and shows a row that stays throughout exactly once. */
  lemma {:induction false} StableRowsAreShownOnce(sets: seq<seq<Row>>, cursor: Option<Cursor>, descending: bool,
                                                  pageSize: nat, row: Row)
    requires pageSize > 0 && EachUnique(sets)
    ensures Shown(sets, cursor, descending, pageSize, row) <= if Passes(row, cursor, descending) then 1 else 0
    ensures Ends(sets, cursor, descending, pageSize) && Passes(row, cursor, descending)
            && (forall i :: 0 <= i < |sets| ==> row in sets[i])
            ==> Shown(sets, cursor, descending, pageSize, row) == 1
    decreases |sets|
  {
    hide PageAt, Passes, Behind, Occurrences;
    if sets != [] {
      var page := PageAt(sets[0], cursor, descending, pageSize);
      PageOfAnySet(sets[0], cursor, descending, pageSize, row);
      OccursOnce(page.items, row, descending);
      if page.next.Some? {
        assert EachUnique(sets[1..]);
        StableRowsAreShownOnce(sets[1..], page.next, descending, pageSize, row);
        PassesCursor(row, page.next.value, descending);
        assert forall i :: 0 <= i < |sets[1..]| ==> sets[1..][i] == sets[i + 1];
      }
    }
  }

  lemma {:induction false} PassesCursor(row: Row, cursor: Cursor, descending: bool)
    ensures Passes(row, Some(cursor), descending) == Behind(row, cursor, descending)
  {
  }
}

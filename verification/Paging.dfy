// Cursor pagination, both sides: `Page.slice` of apps/api/src/choregos_api/deps.py and the loop that walks the pages,
// `_pages` of tools/report_round_trips.py.
module Paging {
  import opened Wrappers

  datatype Row = Row(id: string, rest: string)

  datatype Page = Page(cursor: Option<string>, limit: nat)

  datatype Window = Window(rows: seq<Row>, next: Option<string>, hasMore: bool)

  /** Where a row of this id first stands, or -1. */
  function At(rows: seq<Row>, id: string): (i: int)
    ensures -1 <= i < |rows|
    ensures i >= 0 ==> rows[i].id == id
    ensures forall j :: 0 <= j < (if i < 0 then |rows| else i) ==> rows[j].id != id
  {
    if rows == [] then -1
    else
      var i := At(rows[..|rows| - 1], id);
      if i >= 0 then i else if rows[|rows| - 1].id == id then |rows| - 1 else -1
  }

  /** Just after the cursor's row; from the top when there is no cursor, an empty one, or one that no row has. */
  function Start(rows: seq<Row>, cursor: Option<string>): (start: nat)
    ensures start <= |rows|
  {
    if cursor == None || cursor == Some("") then 0 else At(rows, cursor.value) + 1
  }

  function Sliced(rows: seq<Row>, page: Page): Window {
    var start := Start(rows, page.cursor);
    var end := if start + page.limit < |rows| then start + page.limit else |rows|;
    var hasMore := start + page.limit < |rows|;
    Window(rows[start..end], if start < end && hasMore then Some(rows[end - 1].id) else None, hasMore)
  }

  method Slice(page: Page, rows: seq<Row>) returns (window: Window)
    ensures window == Sliced(rows, page)
  {
    var start := 0;
    if page.cursor.Some? && page.cursor.value != "" {
      var index := 0;
      while index < |rows| && rows[index].id != page.cursor.value
        invariant index <= |rows| && forall j :: 0 <= j < index ==> rows[j].id != page.cursor.value
      {
        index := index + 1;
      }
      if index < |rows| { start := index + 1; }
    }
    var hasMore := start + page.limit < |rows|;
    var shown := rows[start..if hasMore then start + page.limit else |rows|];
    var next := if shown != [] && hasMore then Some(shown[|shown| - 1].id) else None;
    window := Window(shown, next, hasMore);
  }

  /** A window shows these rows of a listing, from `start` on. */
  predicate Shows(rows: seq<Row>, start: nat, limit: nat, window: Window) {
    var left := |rows| - start;
    && |window.rows| == (if left <= limit then left else limit)
    && (forall i :: 0 <= i < |window.rows| ==> window.rows[i] == rows[start + i])
    && window.hasMore == (|window.rows| < left)
    && window.next == (if window.hasMore && limit > 0 then Some(rows[start + limit - 1].id) else None)
  }

  /** A page shows what follows the first row with the cursor's id, or the top of the listing when the cursor is absent,
      empty or the id of no row; it names its last row when rows are left. */
  lemma SliceShows(rows: seq<Row>, page: Page, k: nat)
    requires k < |rows| ==> page.cursor == Some(rows[k].id) && rows[k].id != ""
    requires page.cursor.Some? && page.cursor.value != "" ==>
               k <= |rows| && forall i :: 0 <= i < k ==> rows[i].id != page.cursor.value
    ensures if k < |rows| then Shows(rows, k + 1, page.limit, Sliced(rows, page))
            else Shows(rows, 0, page.limit, Sliced(rows, page))
  {
    var i := if page.cursor.Some? then At(rows, page.cursor.value) else -1;
    if k < |rows| { assert i == k; }
  }

  /** Ids are distinct, and never empty. */
  predicate ValidIds(rows: seq<Row>) {
    && (forall i :: 0 <= i < |rows| ==> rows[i].id != "")
    && (forall i, j :: 0 <= i < j < |rows| ==> rows[i].id != rows[j].id)
  }

  /** On a listing that does not change, the loop ends and returns the rows, each once and in order. */
  method Pages(rows: seq<Row>, limit: nat) returns (items: seq<Row>)
    requires ValidIds(rows) && limit >= 1
    ensures items == rows
  {
    items := [];
    var cursor: Option<string> := None;
    var more := true;
    while more
      invariant |items| <= |rows| && items == rows[..|items|]
      invariant if more then Start(rows, cursor) == |items| else items == rows
      decreases |rows| - |items|, more
    {
      var window := Slice(Page(cursor, limit), rows);
      ghost var start := |items|;
      items := items + window.rows;
      cursor := window.next;
      more := cursor.Some? && cursor.value != "";
    }
  }

  // ------------------------------------------------------------------ a listing that grows between pages

  /** Rows were only inserted, the old ones in their order; what they show may have changed. */
  predicate Grows(a: seq<Row>, b: seq<Row>) {
    && (forall i :: 0 <= i < |a| ==> At(b, a[i].id) >= 0)
    && (forall i, j :: 0 <= i < j < |a| ==> At(b, a[i].id) < At(b, a[j].id))
  }

  /** The loop after some pages; without a cursor it is either about to start or finished. */
  datatype Reader = Reader(items: seq<Row>, cursor: Option<string>, finished: bool)

  function Next(r: Reader, listing: seq<Row>, limit: nat): Reader {
    if r.finished then r
    else
      var window := Sliced(listing, Page(r.cursor, limit));
      Reader(r.items + window.rows, window.next, window.next == None || window.next == Some(""))
  }

  /** After reading the first `n` pages, each from the listing as it was then. */
  function Read(listings: seq<seq<Row>>, limit: nat, n: nat): Reader
    requires n <= |listings|
  {
    if n == 0 then Reader([], None, false) else Next(Read(listings, limit, n - 1), listings[n - 1], limit)
  }

  predicate GrowingListings(listings: seq<seq<Row>>) {
    && (forall i :: 0 <= i < |listings| ==> ValidIds(listings[i]))
    && (forall i :: 0 < i < |listings| ==> Grows(listings[i - 1], listings[i]))
  }

  predicate Serves(items: seq<Row>, id: string) {
    exists i :: 0 <= i < |items| && items[i].id == id
  }

  /** The items in the order of the listing, and all of them at or before position `p`. */
  predicate Ordered(items: seq<Row>, listing: seq<Row>, p: int) {
    && (forall i :: 0 <= i < |items| ==> 0 <= At(listing, items[i].id) <= p)
    && (forall i, j :: 0 <= i < j < |items| ==> At(listing, items[i].id) < At(listing, items[j].id))
  }

  /** Every row of the first listing that stands at or before `p` is served. */
  predicate Covers(first: seq<Row>, items: seq<Row>, listing: seq<Row>, p: int) {
    forall i :: 0 <= i < |first| && At(listing, first[i].id) <= p ==> Serves(items, first[i].id)
  }

  lemma AtIndex(rows: seq<Row>, i: nat)
    requires ValidIds(rows) && i < |rows|
    ensures At(rows, rows[i].id) == i
  {}

  lemma GrowsKeepsOrder(a: seq<Row>, b: seq<Row>, x: string, y: string)
    requires Grows(a, b) && At(a, x) >= 0 && At(a, y) >= 0
    ensures At(b, x) >= 0 && At(b, y) >= 0
    ensures At(a, x) < At(a, y) ==> At(b, x) < At(b, y)
    ensures At(a, x) == At(a, y) ==> x == y
  {
    assert a[At(a, x)].id == x && a[At(a, y)].id == y;
  }

  lemma GrowsTransitive(a: seq<Row>, b: seq<Row>, c: seq<Row>)
    requires Grows(a, b) && Grows(b, c)
    ensures Grows(a, c)
  {
    forall i | 0 <= i < |a| ensures At(c, a[i].id) >= 0 { GrowsKeepsOrder(b, c, a[i].id, a[i].id); }
    forall i, j | 0 <= i < j < |a| ensures At(c, a[i].id) < At(c, a[j].id) { GrowsKeepsOrder(b, c, a[i].id, a[j].id); }
  }

  lemma {:induction false} FirstGrows(listings: seq<seq<Row>>, n: nat)
    requires GrowingListings(listings) && n < |listings|
    ensures Grows(listings[0], listings[n])
  {
    if n == 0 {
      var first := listings[0];
      forall i | 0 <= i < |first| ensures At(first, first[i].id) == i { AtIndex(first, i); }
    } else {
      FirstGrows(listings, n - 1);
      GrowsTransitive(listings[0], listings[n - 1], listings[n]);
    }
  }

  /** What the loop has kept when its last page came from this listing and ended at position `p`. */
  predicate Kept(first: seq<Row>, items: seq<Row>, listing: seq<Row>, p: int) {
    Ordered(items, listing, p) && Covers(first, items, listing, p)
  }

  lemma KeptWhenGrown(first: seq<Row>, items: seq<Row>, a: seq<Row>, b: seq<Row>, p: nat)
    requires ValidIds(a) && Grows(first, a) && Grows(a, b) && p < |a| && Kept(first, items, a, p)
    ensures Kept(first, items, b, At(b, a[p].id))
  {
    AtIndex(a, p);
    forall i | 0 <= i < |items| ensures 0 <= At(b, items[i].id) <= At(b, a[p].id) {
      GrowsKeepsOrder(a, b, items[i].id, a[p].id);
    }
    forall i, j | 0 <= i < j < |items| ensures At(b, items[i].id) < At(b, items[j].id) {
      GrowsKeepsOrder(a, b, items[i].id, items[j].id);
    }
    forall i | 0 <= i < |first| && At(b, first[i].id) <= At(b, a[p].id) ensures Serves(items, first[i].id) {
      GrowsKeepsOrder(a, b, a[p].id, first[i].id);
    }
  }

  lemma KeptWhenServed(first: seq<Row>, items: seq<Row>, listing: seq<Row>, start: nat, end: nat)
    requires ValidIds(listing) && start <= end <= |listing| && Grows(first, listing)
    requires Kept(first, items, listing, start - 1)
    ensures Kept(first, items + listing[start..end], listing, end - 1)
  {
    var all := items + listing[start..end];
    forall i | |items| <= i < |all| ensures At(listing, all[i].id) == start + (i - |items|) {
      AtIndex(listing, start + (i - |items|));
    }
    forall i | 0 <= i < |first| && At(listing, first[i].id) <= end - 1 ensures Serves(all, first[i].id) {
      var at := At(listing, first[i].id);
      if at < start {
        var j :| 0 <= j < |items| && items[j].id == first[i].id;
        assert all[j] == items[j];
      } else {
        assert all[|items| + at - start] == listing[at];
      }
    }
  }

  /** Midway: the cursor is the last row served, and pages so far were full. */
  predicate Midway(first: seq<Row>, r: Reader, listing: seq<Row>, served: nat) {
    && r.cursor.Some? && r.cursor.value != "" && At(listing, r.cursor.value) >= 0
    && Kept(first, r.items, listing, At(listing, r.cursor.value)) && |r.items| == served
  }

  /** At the end: the last page came from one of the listings and reached its end. */
  predicate Ended(listings: seq<seq<Row>>, items: seq<Row>, n: nat) {
    exists m :: 0 <= m < n <= |listings| && Kept(listings[0], items, listings[m], |listings[m]| - 1)
  }

  /** While pages come from a listing that only grows: nothing is served twice, what is served is in order, and every
      row at or before the cursor that was there at first is served. */
  lemma {:induction false} PagesKeep(listings: seq<seq<Row>>, limit: nat, n: nat)
    requires GrowingListings(listings) && limit >= 1 && 0 < n <= |listings|
    ensures var r := Read(listings, limit, n);
            if r.finished then Ended(listings, r.items, n) else Midway(listings[0], r, listings[n - 1], n * limit)
  {
    var before := Read(listings, limit, n - 1);
    if n > 1 { PagesKeep(listings, limit, n - 1); }
    if before.finished {
      var m :| 0 <= m < n - 1 && Kept(listings[0], before.items, listings[m], |listings[m]| - 1);
    } else {
      PageKeeps(listings, limit, n, before);
    }
  }

  lemma PageKeeps(listings: seq<seq<Row>>, limit: nat, n: nat, before: Reader)
    requires GrowingListings(listings) && limit >= 1 && 0 < n <= |listings| && !before.finished
    requires if n == 1 then before == Reader([], None, false)
             else Midway(listings[0], before, listings[n - 2], (n - 1) * limit)
    ensures var next := Next(before, listings[n - 1], limit);
            if next.finished then Ended(listings, next.items, n)
            else Midway(listings[0], next, listings[n - 1], n * limit)
  {
    hide Next, Kept, Grows, ValidIds, Sliced;
    FirstGrows(listings, n - 1);
    if n == 1 {
      NothingKept(listings[0]);
    } else {
      FirstGrows(listings, n - 2);
      MidwayWhenGrown(listings[0], before, listings[n - 2], listings[n - 1], (n - 1) * limit);
    }
    NextKeeps(listings[0], before, listings[n - 1], limit);
    assert n * limit == (n - 1) * limit + limit;
  }

  lemma NothingKept(listing: seq<Row>)
    requires ValidIds(listing)
    ensures Kept(listing, [], listing, -1)
  {}

  lemma MidwayWhenGrown(first: seq<Row>, r: Reader, a: seq<Row>, b: seq<Row>, served: nat)
    requires ValidIds(a) && Grows(first, a) && Grows(a, b) && Midway(first, r, a, served)
    ensures Kept(first, r.items, b, Start(b, r.cursor) - 1)
  {
    KeptWhenGrown(first, r.items, a, b, At(a, r.cursor.value));
  }

  lemma NextIs(r: Reader, listing: seq<Row>, limit: nat)
    requires ValidIds(listing) && limit >= 1 && !r.finished
    ensures var start, next := Start(listing, r.cursor), Next(r, listing, limit);
            if start + limit < |listing| then
              next == Reader(r.items + listing[start..start + limit], Some(listing[start + limit - 1].id), false)
            else next == Reader(r.items + listing[start..], None, true)
  {}

  lemma NextKeeps(first: seq<Row>, r: Reader, listing: seq<Row>, limit: nat)
    requires ValidIds(listing) && limit >= 1 && !r.finished && Grows(first, listing)
    requires Kept(first, r.items, listing, Start(listing, r.cursor) - 1)
    ensures var next := Next(r, listing, limit);
            if next.finished then Kept(first, next.items, listing, |listing| - 1)
            else Midway(first, next, listing, |r.items| + limit)
  {
    hide Kept, Next, Sliced, Grows;
    var start := Start(listing, r.cursor);
    NextIs(r, listing, limit);
    if start + limit < |listing| {
      KeptWhenServed(first, r.items, listing, start, start + limit);
      AtIndex(listing, start + limit - 1);
    } else {
      KeptWhenServed(first, r.items, listing, start, |listing|);
      assert listing[start..|listing|] == listing[start..];
    }
  }

  /** A finished loop served every row that was there at first, and no row twice. */
  lemma FinishedLoopCovers(listings: seq<seq<Row>>, limit: nat, n: nat)
    requires GrowingListings(listings) && limit >= 1 && 0 < n <= |listings| && Read(listings, limit, n).finished
    ensures var items := Read(listings, limit, n).items;
            && (forall i, j :: 0 <= i < j < |items| ==> items[i].id != items[j].id)
            && (forall i :: 0 <= i < |listings[0]| ==> Serves(items, listings[0][i].id))
  {
    PagesKeep(listings, limit, n);
    var items := Read(listings, limit, n).items;
    var m :| 0 <= m < n && Kept(listings[0], items, listings[m], |listings[m]| - 1);
    forall i | 0 <= i < |listings[0]| ensures Serves(items, listings[0][i].id) {
      assert At(listings[m], listings[0][i].id) <= |listings[m]| - 1;
    }
  }

  /** It finishes as soon as it could have read more rows than the listing holds. */
  lemma LoopFinishes(listings: seq<seq<Row>>, limit: nat, n: nat)
    requires GrowingListings(listings) && limit >= 1 && 0 < n <= |listings| && |listings[n - 1]| <= n * limit
    ensures Read(listings, limit, n).finished
  {
    PagesKeep(listings, limit, n);
    var r, listing := Read(listings, limit, n), listings[n - 1];
    if !r.finished {
      NotFinishedHasMore(listings, limit, n);
      OrderedFits(r.items, listing, At(listing, r.cursor.value));
    }
  }

  lemma {:induction false} OrderedFits(items: seq<Row>, listing: seq<Row>, p: nat)
    requires Ordered(items, listing, p)
    ensures |items| <= p + 1
    decreases |items|
  {
    if items != [] {
      var last := At(listing, items[|items| - 1].id);
      assert |items| > 1 ==> 0 <= At(listing, items[0].id) < last;
      if last > 0 { OrderedFits(items[..|items| - 1], listing, last - 1); }
    }
  }

  lemma NotFinishedHasMore(listings: seq<seq<Row>>, limit: nat, n: nat)
    requires GrowingListings(listings) && limit >= 1 && 0 < n <= |listings| && !Read(listings, limit, n).finished
    ensures var r, listing := Read(listings, limit, n), listings[n - 1];
            r.cursor.Some? && At(listing, r.cursor.value) + 1 < |listing|
  {
    var before, listing := Read(listings, limit, n - 1), listings[n - 1];
    NextIs(before, listing, limit);
    AtIndex(listing, Start(listing, before.cursor) + limit - 1);
  }

  /** The next page shows a row that was already served. */
  predicate Repeats(r: Reader, listing: seq<Row>, limit: nat) {
    var rows := Sliced(listing, Page(r.cursor, limit)).rows;
    exists i :: 0 <= i < |rows| && Serves(r.items, rows[i].id)
  }

  lemma ServedIsBefore(r: Reader, listing: seq<Row>, i: nat)
    requires ValidIds(listing) && i < |listing| && r.cursor.Some? && i > At(listing, r.cursor.value)
    requires forall k :: 0 <= k < |r.items| ==> At(listing, r.items[k].id) <= At(listing, r.cursor.value)
    ensures !Serves(r.items, listing[i].id)
  {
    AtIndex(listing, i);
  }

  lemma SlicedRows(listing: seq<Row>, cursor: Option<string>, limit: nat)
    ensures var start, rows := Start(listing, cursor), Sliced(listing, Page(cursor, limit)).rows;
            && |rows| == (if start + limit < |listing| then limit else |listing| - start)
            && forall i :: 0 <= i < |rows| ==> rows[i] == listing[start + i]
  {}

  lemma NoRepeatAfterCursor(r: Reader, listing: seq<Row>, limit: nat)
    requires ValidIds(listing) && r.cursor.Some? && r.cursor.value != "" && At(listing, r.cursor.value) >= 0
    requires forall i :: 0 <= i < |r.items| ==> At(listing, r.items[i].id) <= At(listing, r.cursor.value)
    ensures !Repeats(r, listing, limit)
  {
    hide Serves, Sliced, ValidIds;
    SlicedRows(listing, r.cursor, limit);
    var start, rows := Start(listing, r.cursor), Sliced(listing, Page(r.cursor, limit)).rows;
    forall i | 0 <= i < |rows| ensures !Serves(r.items, rows[i].id) { ServedIsBefore(r, listing, start + i); }
  }

  /** A row served before is among the first `limit`. */
  predicate ServedOnTop(r: Reader, listing: seq<Row>, limit: nat) {
    exists i :: 0 <= i < |listing| && i < limit && Serves(r.items, listing[i].id)
  }

  lemma RepeatsFromTheTop(r: Reader, listing: seq<Row>, limit: nat)
    requires Start(listing, r.cursor) == 0
    ensures Repeats(r, listing, limit) <==> ServedOnTop(r, listing, limit)
  {
    hide Serves, Sliced, Start;
    SlicedRows(listing, r.cursor, limit);
    var rows := Sliced(listing, Page(r.cursor, limit)).rows;
    if Repeats(r, listing, limit) {
      var i :| 0 <= i < |rows| && Serves(r.items, rows[i].id);
      assert rows[i] == listing[i];
    }
    if ServedOnTop(r, listing, limit) {
      var i :| 0 <= i < |listing| && i < limit && Serves(r.items, listing[i].id);
      assert rows[i] == listing[i];
    }
  }

  /** When rows may be deleted too, the rest keeping their order, the next page repeats a row exactly when the cursor's
      row is gone and a row served before is among the first `limit`: the reader starts over. */
  lemma RepeatsExactlyWhen(r: Reader, listing: seq<Row>, limit: nat)
    requires ValidIds(listing) && r.cursor.Some? && r.cursor.value != ""
    requires At(listing, r.cursor.value) >= 0 ==>
               forall i :: 0 <= i < |r.items| ==> At(listing, r.items[i].id) <= At(listing, r.cursor.value)
    ensures Repeats(r, listing, limit) <==> At(listing, r.cursor.value) < 0 && ServedOnTop(r, listing, limit)
  {
    hide Repeats, ServedOnTop, ValidIds;
    if At(listing, r.cursor.value) >= 0 {
      NoRepeatAfterCursor(r, listing, limit);
    } else {
      RepeatsFromTheTop(r, listing, limit);
    }
  }

  /** A deleted cursor row sends the reader back to the top: a row is served twice. */
  lemma DeletedCursorStartsOver()
    ensures var a, b, c := Row("a", ""), Row("b", ""), Row("c", "");
            Read([[a, b, c], [a, c]], 2, 2) == Reader([a, b, a, c], None, true)
  {
    var a, b, c := Row("a", ""), Row("b", ""), Row("c", "");
    var first, second := [a, b, c], [a, c];
    var listings := [first, second];
    assert Sliced(first, Page(None, 2)) == Window([a, b], Some("b"), true);
    assert second[..1] == [a];
    assert At(second, "b") == -1;
    assert Sliced(second, Page(Some("b"), 2)) == Window([a, c], None, false);
    assert Read(listings, 2, 1) == Reader([a, b], Some("b"), false);
  }
}

/** Keyset pagination: pages of rows in (created_at, id) descending order, each
    starting strictly below the last row of the one before. */
module Paging {
  import opened Wrappers
  import opened Offers
  import OfferProtocol

  datatype Key = Key(createdAt: int, id: nat)

  predicate Below(a: Key, b: Key) {
    a.createdAt < b.createdAt || (a.createdAt == b.createdAt && a.id < b.id)
  }

  predicate After(k: Key, cursor: Option<Key>) {
    cursor.None? || Below(k, cursor.value)
  }

  predicate Descending(s: seq<Key>) {
    forall i, j :: 0 <= i < j < |s| ==> Below(s[j], s[i])
  }

  /** A page over the matching rows: the highest ones past the cursor, as many as the
      limit allows, and whether any is left. */
  ghost predicate IsPage(items: seq<Key>, hasMore: bool, rows: set<Key>, cursor: Option<Key>, limit: nat) {
    && Descending(items) && |items| <= limit
    && (forall k :: k in items ==> k in rows && After(k, cursor))
    && (forall k, m :: k in rows && After(k, cursor) && k !in items && m in items ==> Below(k, m))
    && (hasMore <==> exists k :: k in rows && After(k, cursor) && k !in items)
    && (hasMore ==> |items| == limit)
  }

  /** The row ordered before all others of a non-empty set. */
  method Highest(rows: set<Key>) returns (k: Key)
    requires rows != {}
    ensures k in rows && forall m :: m in rows && m != k ==> Below(m, k)
  {
    k :| k in rows;
    var todo := rows - {k};
    while todo != {}
      invariant todo <= rows && k in rows && k !in todo
      invariant forall m :: m in rows && m !in todo && m != k ==> Below(m, k)
      decreases todo
    {
      var m :| m in todo;
      todo := todo - {m};
      if Below(k, m) {
        k := m;
      }
    }
  }

  /** Fetches up to one row more than the limit and drops it again: it only tells
      whether a next page exists. */
  method List(rows: set<Key>, cursor: Option<Key>, limit: nat) returns (items: seq<Key>, hasMore: bool)
    ensures IsPage(items, hasMore, rows, cursor, limit)
    // Newest first, the higher id on a tie; only rows past the cursor, and no shown row
    // behind one left out.
    ensures forall i, j :: 0 <= i < j < |items| ==>
              items[i].createdAt > items[j].createdAt
              || (items[i].createdAt == items[j].createdAt && items[i].id > items[j].id)
    ensures cursor.Some? ==> forall k :: k in items ==>
              k.createdAt < cursor.value.createdAt
              || (k.createdAt == cursor.value.createdAt && k.id < cursor.value.id)
    ensures forall k :: k in items ==> k in rows
    ensures |items| <= limit && (hasMore ==> |items| == limit)
    ensures forall k, m :: k in rows && k !in items && m in items
                           && (cursor.None? || k.createdAt < cursor.value.createdAt
                               || (k.createdAt == cursor.value.createdAt && k.id < cursor.value.id)) ==>
              hasMore && (k.createdAt < m.createdAt || (k.createdAt == m.createdAt && k.id < m.id))
    ensures hasMore <==>
              exists k :: k in rows && k !in items
                          && (cursor.None? || k.createdAt < cursor.value.createdAt
                              || (k.createdAt == cursor.value.createdAt && k.id < cursor.value.id))
  {
    items := [];
    var rest := set k | k in rows && After(k, cursor);
    while rest != {} && |items| < limit + 1
      invariant |items| <= limit + 1 && Descending(items)
      invariant forall k :: k in rest ==> k in rows && After(k, cursor)
      invariant forall k :: k in rows && After(k, cursor) ==> k in rest || k in items
      invariant forall k :: k in items ==> k in rows && After(k, cursor) && k !in rest
      invariant forall k, i :: k in rest && 0 <= i < |items| ==> Below(k, items[i])
      decreases rest
    {
      var k := Highest(rest);
      items := items + [k];
      rest := rest - {k};
    }
    hasMore := |items| > limit;
    if hasMore {
      assert items[limit] in rows && After(items[limit], cursor);
      items := items[..limit];
    }
  }

  // ---- Following the cursors ----

  datatype Page = Page(items: seq<Key>, hasMore: bool)

  function CursorAfter(p: Page): Option<Key> {
    if p.hasMore && p.items != [] then Some(p.items[|p.items| - 1]) else None
  }

  function CursorFor(pages: seq<Page>, i: nat): Option<Key>
    requires i <= |pages|
  {
    if i == 0 then None else CursorAfter(pages[i - 1])
  }

  ghost predicate PageAt(pages: seq<Page>, tables: seq<set<Key>>, limits: seq<nat>, i: nat)
    requires i < |pages| == |tables| == |limits|
  {
    IsPage(pages[i].items, pages[i].hasMore, tables[i], CursorFor(pages, i), limits[i])
  }

  /** A client follows next_cursor from the first page; `tables[i]` are the matching
      rows at the moment page i is fetched, `limits[i]` the limit it asks for. */
  ghost predicate Walk(pages: seq<Page>, tables: seq<set<Key>>, limits: seq<nat>) {
    && |tables| == |pages| && |limits| == |pages|
    && (forall i :: 0 <= i < |pages| ==> 1 <= limits[i])
    && (forall i :: 0 <= i < |pages| ==> PageAt(pages, tables, limits, i))
    && (forall i :: 0 <= i < |pages| - 1 ==> pages[i].hasMore)
  }

  function Rows(pages: seq<Page>): seq<Key> {
    if pages == [] then [] else Rows(pages[..|pages| - 1]) + pages[|pages| - 1].items
  }

  lemma WalkPrefix(pages: seq<Page>, tables: seq<set<Key>>, limits: seq<nat>)
    requires Walk(pages, tables, limits) && |pages| > 0
    ensures Walk(pages[..|pages| - 1], tables[..|pages| - 1], limits[..|pages| - 1])
  {
    hide IsPage;
    var n := |pages| - 1;
    forall i | 0 <= i < n ensures PageAt(pages[..n], tables[..n], limits[..n], i) {
      assert PageAt(pages, tables, limits, i);
    }
  }

  /** A page that has more ends at its cursor, and a later page starts below it. */
  lemma PageEndsAtItsCursor(pages: seq<Page>, tables: seq<set<Key>>, limits: seq<nat>, i: nat)
    requires Walk(pages, tables, limits) && i < |pages| - 1
    ensures pages[i].items != [] && CursorAfter(pages[i]) == Some(pages[i].items[|pages[i].items| - 1])
    ensures IsPage(pages[i + 1].items, pages[i + 1].hasMore, tables[i + 1], CursorAfter(pages[i]), limits[i + 1])
  {
    assert PageAt(pages, tables, limits, i + 1);
    assert PageAt(pages, tables, limits, i);
  }

  lemma LastRow(pages: seq<Page>, tables: seq<set<Key>>, limits: seq<nat>)
    requires Walk(pages, tables, limits) && |pages| > 0 && pages[|pages| - 1].hasMore
    ensures Rows(pages) != [] && CursorAfter(pages[|pages| - 1]) == Some(Rows(pages)[|Rows(pages)| - 1])
  {
    var n := |pages| - 1;
    assert PageAt(pages, tables, limits, n);
  }

  /** Whatever is inserted, deleted or changed between the fetches, the rows come in
      strictly descending order, so none is shown twice. */
  lemma {:induction false} WalkIsDescending(pages: seq<Page>, tables: seq<set<Key>>, limits: seq<nat>)
    requires Walk(pages, tables, limits)
    ensures Descending(Rows(pages))
    ensures forall i, j :: 0 <= i < j < |Rows(pages)| ==>
              var a, b := Rows(pages)[i], Rows(pages)[j];
              a.createdAt > b.createdAt || (a.createdAt == b.createdAt && a.id > b.id)
  {
    if |pages| > 0 {
      var n := |pages| - 1;
      WalkPrefix(pages, tables, limits);
      WalkIsDescending(pages[..n], tables[..n], limits[..n]);
      if n == 0 {
        assert Rows(pages[..0]) == [];
        assert Rows(pages) == pages[0].items;
        assert PageAt(pages, tables, limits, 0);
      } else {
        PageEndsAtItsCursor(pages, tables, limits, n - 1);
        LastRow(pages[..n], tables[..n], limits[..n]);
        Extends(Rows(pages[..n]), pages[n].items, CursorAfter(pages[n - 1]).value);
      }
    }
  }

  lemma Extends(front: seq<Key>, items: seq<Key>, cursor: Key)
    requires Descending(front) && Descending(items) && front != [] && front[|front| - 1] == cursor
    requires forall k :: k in items ==> Below(k, cursor)
    ensures Descending(front + items)
  {
  }

  /** Rows above the walk's current cursor that stayed in the table have been shown. */
  lemma {:induction false} PassedRowsAreShown(pages: seq<Page>, tables: seq<set<Key>>, limits: seq<nat>, k: Key)
    requires Walk(pages, tables, limits) && |pages| > 0
    requires forall i :: 0 <= i < |pages| ==> k in tables[i]
    ensures k in Rows(pages) || (pages[|pages| - 1].hasMore && After(k, CursorAfter(pages[|pages| - 1])))
  {
    var n := |pages| - 1;
    var cursor := CursorFor(pages, n);
    assert PageAt(pages, tables, limits, n);
    if n > 0 {
      WalkPrefix(pages, tables, limits);
      PassedRowsAreShown(pages[..n], tables[..n], limits[..n], k);
    }
    if k !in Rows(pages) {
      assert After(k, cursor) && k !in pages[n].items;
      assert pages[n].items[|pages[n].items| - 1] in pages[n].items;
    }
  }

  /** A row that is there and matches throughout a finished walk is shown exactly
      once, however many others come and go. */
  lemma StayingRowsAreShownOnce(pages: seq<Page>, tables: seq<set<Key>>, limits: seq<nat>, k: Key)
    requires Walk(pages, tables, limits) && |pages| > 0 && !pages[|pages| - 1].hasMore
    requires forall i :: 0 <= i < |pages| ==> k in tables[i]
    ensures exists i :: 0 <= i < |Rows(pages)| && Rows(pages)[i] == k
    ensures forall i, j :: (0 <= i < |Rows(pages)| && 0 <= j < |Rows(pages)|
                            && Rows(pages)[i] == k && Rows(pages)[j] == k) ==> i == j
  {
    PassedRowsAreShown(pages, tables, limits, k);
    WalkIsDescending(pages, tables, limits);
  }

  lemma {:induction false} ShownRowsWereThere(pages: seq<Page>, tables: seq<set<Key>>, limits: seq<nat>, k: Key)
    requires Walk(pages, tables, limits) && k in Rows(pages)
    ensures exists i :: 0 <= i < |pages| && k in tables[i]
  {
    var n := |pages| - 1;
    assert PageAt(pages, tables, limits, n);
    if k !in pages[n].items {
      WalkPrefix(pages, tables, limits);
      ShownRowsWereThere(pages[..n], tables[..n], limits[..n], k);
    } else {
      assert k in tables[n];
    }
  }

  lemma {:induction false} EveryPageAddsRows(pages: seq<Page>, tables: seq<set<Key>>, limits: seq<nat>)
    requires Walk(pages, tables, limits)
    ensures |pages| <= |Rows(pages)| + 1
    ensures |pages| > 0 && pages[|pages| - 1].hasMore ==> |pages| <= |Rows(pages)|
  {
    if |pages| > 0 {
      var n := |pages| - 1;
      WalkPrefix(pages, tables, limits);
      EveryPageAddsRows(pages[..n], tables[..n], limits[..n]);
      assert PageAt(pages, tables, limits, n);
    }
  }

  lemma {:induction false} DescendingFits(s: seq<Key>, rows: set<Key>)
    requires Descending(s) && forall k :: k in s ==> k in rows
    ensures |s| <= |rows|
  {
    if s != [] {
      var last := s[|s| - 1];
      assert forall k :: k in s[..|s| - 1] ==> Below(last, k);
      DescendingFits(s[..|s| - 1], rows - {last});
    }
  }

  /** Over an unchanging table a walk takes at most one page more than there are
      rows, and once it ends it has shown the matching rows, all of them, each once,
      newest first. */
  lemma UnchangedTableIsListed(pages: seq<Page>, rows: set<Key>, limits: seq<nat>)
    requires Walk(pages, seq(|pages|, _ => rows), limits)
    ensures |pages| <= |rows| + 1 && Descending(Rows(pages))
    ensures forall i, j :: 0 <= i < j < |Rows(pages)| ==>
              var a, b := Rows(pages)[i], Rows(pages)[j];
              a.createdAt > b.createdAt || (a.createdAt == b.createdAt && a.id > b.id)
    ensures |pages| > 0 && !pages[|pages| - 1].hasMore ==> (set k | k in Rows(pages)) == rows
  {
    var tables := seq(|pages|, _ => rows);
    WalkIsDescending(pages, tables, limits);
    EveryPageAddsRows(pages, tables, limits);
    forall k | k in Rows(pages) ensures k in rows {
      ShownRowsWereThere(pages, tables, limits, k);
    }
    DescendingFits(Rows(pages), rows);
    if |pages| > 0 && !pages[|pages| - 1].hasMore {
      forall k | k in rows ensures k in Rows(pages) {
        StayingRowsAreShownOnce(pages, tables, limits, k);
      }
    }
  }

  // ---- The offer state filter ----

  /** The WHERE clause of the offer list. */
  predicate Matches(row: OfferRow, filter: Option<OfferState>, now: Time) {
    || filter.None?
    || (filter.value == Pending && row.state == Pending && row.expiresAt > now)
    || (filter.value == Expired && row.state == Pending && row.expiresAt <= now)
    || (filter.value == Issued && row.state == Issued)
    || (filter.value == Cancelled && row.state == Cancelled)
  }

  /** The clause agrees with the observed state for every filter exactly when the
      row is not stored as Expired. */
  lemma FilterAgreesUnlessStoredExpired(row: OfferRow, now: Time)
    ensures (forall f :: Matches(row, Some(f), now) <==> ObservedState(row, now) == f) <==> row.state != Expired
  {
    if row.state == Expired {
      assert !Matches(row, Some(Expired), now) && ObservedState(row, now) == Expired;
    }
  }

  /** No reachable row is stored as Expired, so the filter always selects by the
      state each listed row shows. */
  lemma FilterSelectsByObservedState(states: seq<OfferProtocol.Sys>, steps: seq<OfferProtocol.Step>, n: nat,
                                     o: OfferId, filter: OfferState, now: Time)
    requires OfferProtocol.Run(states, steps) && n <= |steps| && o in states[n].offers
    ensures Matches(states[n].offers[o], Some(filter), now) <==> ObservedState(states[n].offers[o], now) == filter
  {
    OfferProtocol.InvHolds(states, steps, n);
    assert RowOk(states[n].offers[o]);
  }
}

/**
 * The virtual list (VirtualList.jsx): it turns a scroll offset into a window
 * of row indices and keeps its own position-to-row cache, filled by batched
 * fetches of the rows the window needs. Offsets and heights are whole pixels.
 */
module VirtualList {
  import opened Nodes

  /** An inclusive window of row indices; `end < start` means no rows. */
  datatype Range = Range(start: int, end: int)

  const EmptyRange: Range := Range(0, -1)

  /** `Math.max(0, rowCount * rowHeight - viewportHeight)`: the largest offset that still fills the viewport. */
  function MaxScrollTop(rowCount: nat, rowHeight: int, viewportHeight: int): (m: int)
    ensures m >= 0 && m >= rowCount * rowHeight - viewportHeight
    ensures m == 0 || m == rowCount * rowHeight - viewportHeight
  {
    Max(0, rowCount * rowHeight - viewportHeight)
  }

  /** `Math.max(0, Math.min(next, maxScrollTop))`. */
  function ClampScroll(next: int, maxScrollTop: int): (c: int)
    ensures maxScrollTop >= 0 ==> 0 <= c <= maxScrollTop
    ensures 0 <= next <= maxScrollTop ==> c == next
    ensures maxScrollTop >= 0 && next > maxScrollTop ==> c == maxScrollTop
    ensures next < 0 ==> c == 0
  {
    Max(0, Min(next, maxScrollTop))
  }

  /** `Math.ceil(a / b)` for a positive divisor. */
  function CeilDiv(a: int, b: int): (q: int)
    requires b > 0
    ensures (q - 1) * b < a <= q * b
  {
    -((-a) / b)
  }

  /**
   * `computeRange`: the first row under the offset and the rows the viewport
   * spans, widened by `overscan` rows on each side and cut to the list.
   */
  function ComputeRange(scrollTop: int, viewportHeight: int, rowCount: nat, rowHeight: int, overscan: int): (r: Range)
    requires rowHeight > 0
    ensures r.start >= 0 && r.end <= rowCount - 1
    ensures rowCount == 0 || viewportHeight == 0 ==> r == EmptyRange
  {
    if rowCount == 0 || viewportHeight == 0 then EmptyRange
    else
      var startIndex := scrollTop / rowHeight;
      var endIndex := startIndex + CeilDiv(viewportHeight, rowHeight) - 1;
      Range(Max(0, startIndex - overscan), Min(rowCount - 1, endIndex + overscan))
  }

  lemma MulMonotone(x: int, y: int, b: int)
    requires b > 0 && x <= y
    ensures x * b <= y * b
  {
    assert (y - x) * b >= 0;
    assert y * b - x * b == (y - x) * b;
  }

  /** `a / b` (rounded down) sits between the multiples of b around a. */
  lemma FloorDivBounds(a: int, b: int)
    requires b > 0
    ensures (a / b) * b <= a < (a / b + 1) * b
  {
    assert a == (a / b) * b + a % b;
    assert (a / b + 1) * b == (a / b) * b + b;
  }

  lemma MulLessCancel(x: int, y: int, b: int)
    requires b > 0 && x * b < y * b
    ensures x < y
  {
    if x >= y {
      MulMonotone(y, x, b);
    }
  }

  /** With the offset clamped to [0, maxScrollTop], a non-empty viewport gets a non-empty window inside the list. */
  lemma ClampedWindowInBounds(scrollTop: int, viewportHeight: int, rowCount: nat, rowHeight: int, overscan: int)
    requires rowHeight > 0 && overscan >= 0 && viewportHeight > 0 && rowCount > 0
    requires 0 <= scrollTop <= MaxScrollTop(rowCount, rowHeight, viewportHeight)
    ensures var r := ComputeRange(scrollTop, viewportHeight, rowCount, rowHeight, overscan);
      0 <= r.start <= r.end <= rowCount - 1
  {
    var q := scrollTop / rowHeight;
    MulMonotone(1, rowCount, rowHeight);
    assert scrollTop < rowCount * rowHeight;
    FloorDivBounds(scrollTop, rowHeight);
    MulLessCancel(q, rowCount, rowHeight);
    var c := CeilDiv(viewportHeight, rowHeight);
    if c < 1 {
      MulMonotone(c, 0, rowHeight);
    }
  }

  /**
   * With at least one row of overscan, every row that the viewport shows,
   * even partly, lies in the window.
   */
  lemma WindowCoversVisibleRows(scrollTop: int, viewportHeight: int, rowCount: nat, rowHeight: int, overscan: int, i: nat)
    requires rowHeight > 0 && overscan >= 1 && viewportHeight > 0 && i < rowCount
    requires i * rowHeight < scrollTop + viewportHeight && scrollTop < (i + 1) * rowHeight
    ensures var r := ComputeRange(scrollTop, viewportHeight, rowCount, rowHeight, overscan);
      r.start <= i <= r.end
  {
    var q := scrollTop / rowHeight;
    var c := CeilDiv(viewportHeight, rowHeight);
    FloorDivBounds(scrollTop, rowHeight);
    MulLessCancel(q, i + 1, rowHeight);
    assert (q + 1 + c) * rowHeight == (q + 1) * rowHeight + c * rowHeight;
    MulLessCancel(i, q + 1 + c, rowHeight);
  }

  /**
   * The window is tight: every row in it lies within `overscan` rows of a
   * row the viewport shows, so the window never grows past the overscan.
   */
  lemma WindowIsTight(scrollTop: int, viewportHeight: int, rowCount: nat, rowHeight: int, overscan: int, i: int)
    requires rowHeight > 0 && overscan >= 0 && viewportHeight > 0 && rowCount > 0
    ensures var r := ComputeRange(scrollTop, viewportHeight, rowCount, rowHeight, overscan);
      r.start <= i <= r.end ==>
        (i + overscan + 1) * rowHeight > scrollTop && (i - overscan) * rowHeight < scrollTop + viewportHeight
  {
    var r := ComputeRange(scrollTop, viewportHeight, rowCount, rowHeight, overscan);
    if r.start <= i <= r.end {
      var q := scrollTop / rowHeight;
      var c := CeilDiv(viewportHeight, rowHeight);
      FloorDivBounds(scrollTop, rowHeight);
      assert i + overscan >= q;
      MulMonotone(q + 1, i + overscan + 1, rowHeight);
      assert i - overscan <= q + c - 1;
      MulMonotone(i - overscan, q + c - 1, rowHeight);
      assert (q + c - 1) * rowHeight == q * rowHeight + (c - 1) * rowHeight;
    }
  }

  /** Without overscan, a row that is only partly visible at the bottom can fall outside the window. */
  lemma NoOverscanMissesPartialRow()
    ensures ComputeRange(5, 10, 3, 10, 0) == Range(0, 0)
    ensures 1 * 10 < 5 + 10 && 5 < 2 * 10
  {
  }

  /**
   * `computeRange` is bounded only for a clamped offset: an offset left over
   * from a longer list gives a window that starts past the last row.
   */
  lemma UnclampedOffsetEscapesList()
    ensures var r := ComputeRange(2400, 100, 1, 24, 5);
      r == Range(95, 0) && r.start > 1 - 1
  {
  }

  /** `setRangeIfChanged` replaces the range only when its start or end differs. */
  function RangeChanged(prev: Range, next: Range): (changed: bool)
    ensures changed <==> prev != next
  {
    prev.start != next.start || prev.end != next.end
  }

  /** The keys sent for a batch: `results[i]`, `undefined` past the end. */
  datatype ListRequest = ListRequest(batch: seq<int>, keys: seq<Option<Key>>)

  /** The indices in [start, start + count) that are neither cached nor loading, ascending. */
  function ListBatch(cache: map<int, Option<Row>>, loading: set<int>, start: int, count: nat): seq<int>
  {
    if count == 0 then []
    else
      var i := start + count - 1;
      ListBatch(cache, loading, start, count - 1) + (if i !in cache && i !in loading then [i] else [])
  }

  /** The batch is exactly the uncached, not-loading indices of the window, in ascending order. */
  lemma {:induction false} ListBatchSpec(cache: map<int, Option<Row>>, loading: set<int>, start: int, count: nat)
    ensures var b := ListBatch(cache, loading, start, count);
      && Ascending(b)
      && (forall x :: x in b <==> start <= x < start + count && x !in cache && x !in loading)
  {
    if count > 0 {
      var b := ListBatch(cache, loading, start, count - 1);
      ListBatchSpec(cache, loading, start, count - 1);
      forall j | 0 <= j < |b|
        ensures b[j] < start + count - 1
      {
        assert b[j] in b;
      }
    }
  }

  /** The cache after a successful fetch: the k-th batch index gets the k-th record, `undefined` past the end. */
  function StoreAll(cache: map<int, Option<Row>>, batch: seq<int>, fetched: seq<Option<Row>>, n: nat): map<int, Option<Row>>
    requires n <= |batch|
  {
    if n == 0 then cache
    else StoreAll(cache, batch, fetched, n - 1)[batch[n - 1] := At(fetched, n - 1)]
  }

  /** For an ascending batch every batch index holds its own record and nothing else changes. */
  lemma {:induction false} StoreAllSpec(cache: map<int, Option<Row>>, batch: seq<int>, fetched: seq<Option<Row>>, n: nat)
    requires n <= |batch| && Ascending(batch)
    ensures var c := StoreAll(cache, batch, fetched, n);
      && (forall x :: x in c <==> x in cache || x in batch[..n])
      && (forall k :: 0 <= k < n ==> c[batch[k]] == At(fetched, k))
      && (forall x :: x in cache && x !in batch[..n] ==> c[x] == cache[x])
  {
    if n > 0 {
      StoreAllSpec(cache, batch, fetched, n - 1);
      assert batch[..n] == batch[..n - 1] + [batch[n - 1]];
      forall k | 0 <= k < n - 1
        ensures batch[k] != batch[n - 1]
      {
      }
    }
  }

  /** The keys of a batch, read from the list. */
  function KeysOf(list: seq<Option<Key>>, batch: seq<int>): (keys: seq<Option<Key>>)
    ensures |keys| == |batch|
    ensures forall k :: 0 <= k < |batch| ==> keys[k] == At(list, batch[k])
  {
    seq(|batch|, k requires 0 <= k < |batch| => At(list, batch[k]))
  }

  /** One row handed to the row renderer: its index, its cached record (absent reads as none) and its top offset. */
  datatype RenderedRow = RenderedRow(rowIndex: int, item: Option<Row>, top: int)

  function CachedAt(cache: map<int, Option<Row>>, i: int): Option<Row>
  {
    if i in cache then cache[i] else None
  }

  /**
   * The rendered rows of a window: nothing for an empty list or window,
   * otherwise one row per index of the window, placed at its own offset in
   * the virtual column minus the scroll offset.
   */
  function RenderedItems(range: Range, rowCount: nat, rowHeight: int, scrollTop: int, cache: map<int, Option<Row>>): (rows: seq<RenderedRow>)
    ensures !(rowCount > 0 && range.end >= range.start) ==> rows == []
    ensures rowCount > 0 && range.end >= range.start ==> |rows| == range.end - range.start + 1
    ensures forall i :: 0 <= i < |rows| ==>
      && rows[i].rowIndex == range.start + i
      && rows[i].top == rows[i].rowIndex * rowHeight - scrollTop
      && rows[i].item == CachedAt(cache, rows[i].rowIndex)
  {
    if !(rowCount > 0 && range.end >= range.start) then []
    else
      var offsetTop := range.start * rowHeight - scrollTop;
      seq(range.end - range.start + 1, i requires 0 <= i =>
        assert (range.start + i) * rowHeight == range.start * rowHeight + i * rowHeight;
        RenderedRow(range.start + i, CachedAt(cache, range.start + i), offsetTop + i * rowHeight))
  }

  /**
   * The indices `ensureRangeLoaded(start, end)` asks for: none without
   * results, for a window with a negative start or an end before its start,
   * or for an empty list; otherwise the uncached, not-loading indices of the
   * window, which may run past the end of the list.
   */
  function PlanLoad(results: Option<seq<Option<Key>>>, cache: map<int, Option<Row>>, loading: set<int>, start: int, end: int): (batch: seq<int>)
    ensures Ascending(batch)
    ensures forall x :: x in batch <==>
      results.Some? && |results.value| > 0 && 0 <= start <= x <= end && x !in cache && x !in loading
  {
    if results.None? || start < 0 || end < start || |results.value| == 0 then []
    else
      ListBatchSpec(cache, loading, start, end - start + 1);
      ListBatch(cache, loading, start, end - start + 1)
  }

  /** The fetch for a batch: none for an empty batch. */
  function RequestFor(results: Option<seq<Option<Key>>>, batch: seq<int>): Option<ListRequest>
  {
    if batch == [] || results.None? then None else Some(ListRequest(batch, KeysOf(results.value, batch)))
  }

  class VirtualList {
    const rowHeight: int
    const overscan: int
    var results: Option<seq<Option<Key>>>
    var cache: map<int, Option<Row>>
    var loading: set<int>
    var scrollTop: int
    var viewportHeight: int
    var range: Range

    /** `results?.length ?? 0`. */
    function RowCount(): nat
      reads this
    {
      if results.Some? then |results.value| else 0
    }

    function MaxScroll(): int
      reads this
    {
      MaxScrollTop(RowCount(), rowHeight, viewportHeight)
    }

    constructor (results: Option<seq<Option<Key>>>, rowHeight: int, overscan: int)
      requires rowHeight > 0
      ensures this.results == results && this.rowHeight == rowHeight && this.overscan == overscan
      ensures cache == map[] && loading == {} && scrollTop == 0 && viewportHeight == 0 && range == EmptyRange
    {
      this.results := results;
      this.rowHeight := rowHeight;
      this.overscan := overscan;
      cache := map[];
      loading := {};
      scrollTop := 0;
      viewportHeight := 0;
      range := EmptyRange;
    }

    /** `setViewportHeight(container.clientHeight)`. */
    method ViewportResized(height: int)
      modifies this
      ensures viewportHeight == height
      ensures results == old(results) && cache == old(cache) && loading == old(loading)
      ensures scrollTop == old(scrollTop) && range == old(range)
    {
      viewportHeight := height;
    }

    /** `setRangeIfChanged`: the previous range is kept (no new state) when start and end are unchanged. */
    method SetRangeIfChanged(next: Range) returns (changed: bool)
      modifies this
      ensures changed == RangeChanged(old(range), next)
      ensures range == (if changed then next else old(range))
      ensures range.start == next.start && range.end == next.end
      ensures results == old(results) && cache == old(cache) && loading == old(loading)
      ensures scrollTop == old(scrollTop) && viewportHeight == old(viewportHeight)
    {
      changed := RangeChanged(range, next);
      if changed {
        range := next;
      }
    }

    /** `updateScrollAndRange`: the offset is clamped before the window is computed from it. */
    method UpdateScrollAndRange(nextScrollTop: int) returns (changed: bool)
      requires rowHeight > 0
      modifies this
      ensures scrollTop == ClampScroll(nextScrollTop, old(MaxScroll()))
      ensures 0 <= scrollTop <= MaxScroll()
      ensures range == ComputeRange(scrollTop, viewportHeight, RowCount(), rowHeight, overscan)
      ensures changed == RangeChanged(old(range), range)
      ensures results == old(results) && cache == old(cache) && loading == old(loading)
      ensures viewportHeight == old(viewportHeight)
    {
      var clamped := ClampScroll(nextScrollTop, MaxScroll());
      scrollTop := clamped;
      changed := SetRangeIfChanged(ComputeRange(clamped, viewportHeight, RowCount(), rowHeight, overscan));
    }

    /** `handleWheel`: the wheel delta moves the offset, clamped as for any scroll. */
    method HandleWheel(deltaY: int) returns (changed: bool)
      requires rowHeight > 0
      modifies this
      ensures scrollTop == ClampScroll(old(scrollTop) + deltaY, old(MaxScroll()))
      ensures range == ComputeRange(scrollTop, viewportHeight, RowCount(), rowHeight, overscan)
      ensures changed == RangeChanged(old(range), range)
      ensures results == old(results) && cache == old(cache) && loading == old(loading)
      ensures viewportHeight == old(viewportHeight)
    {
      changed := UpdateScrollAndRange(scrollTop + deltaY);
    }

    /** `scrollToTop`: offset 0 and the window from the first row. */
    method ScrollToTop() returns (changed: bool)
      requires rowHeight > 0
      modifies this
      ensures scrollTop == 0
      ensures range == ComputeRange(0, viewportHeight, RowCount(), rowHeight, overscan)
      ensures changed == RangeChanged(old(range), range)
      ensures results == old(results) && cache == old(cache) && loading == old(loading)
      ensures viewportHeight == old(viewportHeight)
    {
      changed := UpdateScrollAndRange(0);
    }

    /** The recompute effect: with a measured viewport, the window follows the stored (unclamped) offset. */
    method RecomputeRange() returns (changed: bool)
      requires rowHeight > 0
      modifies this
      ensures viewportHeight > 0 ==> range == ComputeRange(scrollTop, viewportHeight, RowCount(), rowHeight, overscan)
      ensures viewportHeight <= 0 ==> range == old(range)
      ensures changed == RangeChanged(old(range), range)
      ensures results == old(results) && cache == old(cache) && loading == old(loading)
      ensures scrollTop == old(scrollTop) && viewportHeight == old(viewportHeight)
    {
      changed := false;
      if viewportHeight > 0 {
        changed := SetRangeIfChanged(ComputeRange(scrollTop, viewportHeight, RowCount(), rowHeight, overscan));
      }
    }

    /** The reset effect: new results empty the cache and forget the loading marks; the offset stays. */
    method ResultsChanged(newResults: Option<seq<Option<Key>>>)
      modifies this
      ensures results == newResults && cache == map[] && loading == {}
      ensures scrollTop == old(scrollTop) && viewportHeight == old(viewportHeight) && range == old(range)
    {
      results := newResults;
      cache := map[];
      loading := {};
    }

    /**
     * `ensureRangeLoaded(start, end)` up to the fetch. Without results, for a
     * bad window or an empty list nothing happens; otherwise every index of
     * [start, end] neither cached nor loading is batched and marked loading,
     * and a fetch is issued only for a non-empty batch.
     */
    method EnsureRangeLoaded(start: int, end: int) returns (request: Option<ListRequest>)
      modifies this
      ensures loading == old(loading) + set i | i in PlanLoad(results, cache, old(loading), start, end)
      ensures request == RequestFor(results, PlanLoad(results, cache, old(loading), start, end))
      ensures results == old(results) && cache == old(cache) && range == old(range)
      ensures scrollTop == old(scrollTop) && viewportHeight == old(viewportHeight)
    {
      request := None;
      if results.None? || start < 0 || end < start || RowCount() == 0 {
        return;
      }
      var needLoading: seq<int> := [];
      var i := start;
      while i <= end
        invariant start <= i <= end + 1
        invariant needLoading == ListBatch(cache, old(loading), start, i - start)
        invariant loading == old(loading) + set x | x in needLoading
        invariant forall x :: x in needLoading ==> x < i
        invariant results == old(results) && cache == old(cache) && range == old(range)
        invariant scrollTop == old(scrollTop) && viewportHeight == old(viewportHeight)
      {
        if i !in cache && i !in loading {
          needLoading := needLoading + [i];
          loading := loading + {i};
        }
        i := i + 1;
      }
      if needLoading == [] {
        return;
      }
      request := Some(ListRequest(needLoading, KeysOf(results.value, needLoading)));
    }

    /**
     * The continuation of `ensureRangeLoaded`. On success every batch index
     * takes the record at its offset, whatever the results are by now, and
     * leaves the loading set; on failure only the loading marks go.
     */
    method LoadCompleted(request: ListRequest, outcome: FetchOutcome)
      modifies this
      ensures loading == old(loading) - set i | i in request.batch
      ensures outcome.Failed? ==> cache == old(cache)
      ensures outcome.Fetched? ==> cache == StoreAll(old(cache), request.batch, outcome.records, |request.batch|)
      ensures results == old(results) && range == old(range)
      ensures scrollTop == old(scrollTop) && viewportHeight == old(viewportHeight)
    {
      var batch := request.batch;
      var k := 0;
      while k < |batch|
        invariant 0 <= k <= |batch|
        invariant loading == old(loading) - set i | i in batch[..k]
        invariant outcome.Failed? ==> cache == old(cache)
        invariant outcome.Fetched? ==> cache == StoreAll(old(cache), batch, outcome.records, k)
        invariant results == old(results) && range == old(range)
        invariant scrollTop == old(scrollTop) && viewportHeight == old(viewportHeight)
      {
        assert batch[..k + 1] == batch[..k] + [batch[k]];
        if outcome.Fetched? {
          cache := cache[batch[k] := At(outcome.records, k)];
        }
        loading := loading - {batch[k]};
        k := k + 1;
      }
      assert batch[..k] == batch;
    }

    /** The auto-load effect: a non-empty window is loaded. */
    method AutoLoad() returns (request: Option<ListRequest>)
      modifies this
      ensures var batch := if range.end >= range.start then PlanLoad(results, cache, old(loading), range.start, range.end) else [];
        loading == old(loading) + (set i | i in batch) && request == RequestFor(results, batch)
      ensures results == old(results) && cache == old(cache) && range == old(range)
      ensures scrollTop == old(scrollTop) && viewportHeight == old(viewportHeight)
    {
      request := None;
      if range.end >= range.start {
        request := EnsureRangeLoaded(range.start, range.end);
      }
    }
  }

  /**
   * A fetch issued for the old results still lands in the cache after the
   * results change: the list has no version check.
   */
  method LateFetchLandsAfterReset(row: Row) returns (cache: map<int, Option<Row>>)
    ensures cache == map[0 := Some(row)]
  {
    var list := new VirtualList(Some([Some(7)]), 24, 5);
    assert ListBatch(map[], {}, 0, 1) == [0];
    assert PlanLoad(Some([Some(7)]), map[], {}, 0, 0) == [0];
    var request := list.EnsureRangeLoaded(0, 0);
    assert request.Some? && request.value.batch == [0];
    list.ResultsChanged(Some([Some(8), Some(9)]));
    list.LoadCompleted(request.value, Fetched([Some(row)]));
    cache := list.cache;
  }

  /**
   * Two loads of overlapping windows, from any state of the list and before
   * either completes, never ask for the same index twice.
   */
  method OverlappingLoadsAreDisjoint(list: VirtualList, s1: int, e1: int, s2: int, e2: int)
    returns (first: seq<int>, second: seq<int>)
    modifies list
    ensures forall x :: x in first ==> x !in second
  {
    var r1 := list.EnsureRangeLoaded(s1, e1);
    first := if r1.Some? then r1.value.batch else [];
    assert forall x :: x in first ==> x in list.loading;
    var r2 := list.EnsureRangeLoaded(s2, e2);
    second := if r2.Some? then r2.value.batch else [];
  }
}

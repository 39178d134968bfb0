/**
 * The state of the App component (App.jsx): the LRU row cache, the current
 * search results, and the debounce timer of the search box. Awaiting `invoke`
 * splits an async handler in two: the part up to the call, which returns what
 * is sent, and the continuation, which takes the provider's answer.
 */
module App {
  import opened Nodes
  import opened LruCache
  import Debounce

  /** `new LRUCache(1000)`. */
  const CacheCapacity: int := 1000
  /** The debounce delay of `onQueryChange`, in milliseconds. */
  const DebounceMs: int := 300

  class Session {
    const lruCache: LRUCache<Option<Row>>
    const debounceTimer: Debounce.Timer
    var results: seq<Key>

    ghost predicate Valid()
      reads this, lruCache
    {
      lruCache.Valid() && lruCache.capacity == CacheCapacity
    }

    constructor ()
      ensures Valid() && fresh(lruCache) && fresh(debounceTimer)
      ensures results == [] && lruCache.State() == Empty() && debounceTimer.pending == None
    {
      lruCache := new LRUCache(CacheCapacity);
      debounceTimer := new Debounce.Timer();
      results := [];
    }

    /**
     * `handleSearch(query)` up to the search call. A blank query clears the
     * cache and empties the results without searching; otherwise the search
     * is issued (`searching`) and nothing changes until it answers.
     */
    method HandleSearch(query: string) returns (searching: bool)
      requires Valid()
      modifies this, lruCache
      ensures Valid() && searching == !IsBlank(query)
      ensures !searching ==> results == [] && lruCache.State() == Empty()
      ensures searching ==> results == old(results) && lruCache.State() == old(lruCache.State())
    {
      searching := !IsBlank(query);
      if !searching {
        lruCache.Clear();
        results := [];
      }
    }

    /** The continuation of `handleSearch`: the cache is cleared before the results are replaced. */
    method SearchCompleted(found: seq<Key>)
      requires Valid()
      modifies this, lruCache
      ensures Valid() && results == found && lruCache.State() == Empty()
    {
      lruCache.Clear();
      results := found;
    }

    /** `onQueryChange` at time `now`: the pending search is replaced by one for `text`, 300 ms later. */
    method OnQueryChange(text: string, now: int)
      modifies debounceTimer
      ensures debounceTimer.pending == Some(Debounce.Pending(text, now + DebounceMs))
    {
      debounceTimer.Reschedule(text, now, DebounceMs);
    }

    /** Time reaches `now`: an expired timer runs `handleSearch` with the text it holds. */
    method DebounceElapsed(now: int) returns (searching: Option<string>)
      requires Valid()
      modifies this, lruCache, debounceTimer
      ensures Valid()
      ensures var fired := Debounce.Fired(old(debounceTimer.pending), now);
        && debounceTimer.pending == Debounce.Remaining(old(debounceTimer.pending), now)
        && (fired.None? ==> searching == None && results == old(results) && lruCache.State() == old(lruCache.State()))
        && (fired.Some? && IsBlank(fired.value.query) ==> searching == None && results == [] && lruCache.State() == Empty())
        && (fired.Some? && !IsBlank(fired.value.query) ==>
              searching == Some(fired.value.query) && results == old(results) && lruCache.State() == old(lruCache.State()))
    {
      var fired := debounceTimer.Elapse(now);
      searching := None;
      if fired.Some? {
        var issued := HandleSearch(fired.value.query);
        if issued {
          searching := Some(fired.value.query);
        }
      }
    }

    /** `isRowLoaded({ index })`: whether the cache holds the row; recency is not touched. */
    method IsRowLoaded(index: int) returns (loaded: bool)
      requires Valid()
      ensures loaded == Contains(lruCache.State(), index)
    {
      loaded := lruCache.Has(index);
    }

    /** `loadMoreRows` up to the fetch: the keys sent are `results.slice(startIndex, stopIndex + 1)`. */
    method LoadMoreRows(startIndex: int, stopIndex: int) returns (rows: seq<Key>)
      ensures 0 <= startIndex <= stopIndex < |results| ==> rows == results[startIndex..stopIndex + 1]
      ensures 0 <= stopIndex + 1 <= startIndex ==> rows == []
      ensures rows == Slice(results, startIndex, stopIndex + 1)
    {
      rows := Slice(results, startIndex, stopIndex + 1);
    }

    /**
     * The continuation of `loadMoreRows`: every index from `startIndex` to
     * `stopIndex` is put, in ascending order, with the fetched record at the
     * same offset (`undefined` past the end of the response).
     */
    method RowsLoaded(startIndex: int, stopIndex: int, fetched: seq<Option<Row>>)
      requires Valid()
      modifies lruCache
      ensures Valid()
      ensures var count := if stopIndex < startIndex then 0 else stopIndex - startIndex + 1;
        lruCache.State() == PutAll(old(lruCache.State()), CacheCapacity, RangePuts(startIndex, count, fetched))
    {
      var i := startIndex;
      while i <= stopIndex
        invariant startIndex <= i && (i <= stopIndex + 1 || i == startIndex)
        invariant Valid()
        invariant lruCache.State() == PutAll(old(lruCache.State()), CacheCapacity, RangePuts(startIndex, i - startIndex, fetched))
      {
        RangePutsSnoc(startIndex, i - startIndex, fetched);
        lruCache.Put(i, At(fetched, i - startIndex));
        i := i + 1;
      }
    }
  }
}

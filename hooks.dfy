/**
 * The hooks of hooks/index.js: the results state of `useAppState`, the
 * debounced search of `useSearch`, and the row loading of
 * `useVirtualizedList`. The LRU cache these hooks hold is taken to be the
 * cache of App.jsx (module LruCache). As in App.jsx, an async handler is split
 * into the part up to its `invoke` and the continuation that takes the answer.
 */
module Hooks {
  import opened Nodes
  import opened LruCache
  import opened Constants
  import Debounce

  /** The `results` state of `useAppState` (initially empty). */
  class AppState {
    var results: seq<Key>

    constructor ()
      ensures results == []
    {
      results := [];
    }
  }

  /** `useSearch(setResults, lruCache)`: the hook writes the results of `appState` and clears `lruCache`. */
  class SearchHook {
    const appState: AppState
    const lruCache: LRUCache<Option<Row>>
    const debounceTimer: Debounce.Timer

    ghost predicate Valid()
      reads this, lruCache
    {
      lruCache.Valid()
    }

    constructor (appState: AppState, lruCache: LRUCache<Option<Row>>)
      requires lruCache.Valid()
      ensures Valid() && this.appState == appState && this.lruCache == lruCache
      ensures fresh(debounceTimer) && debounceTimer.pending == None
    {
      this.appState := appState;
      this.lruCache := lruCache;
      debounceTimer := new Debounce.Timer();
    }

    /**
     * `handleSearch(query)` up to the search call: a blank query empties the
     * cache and the results at once; any other query issues the search.
     */
    method HandleSearch(query: string) returns (searching: bool)
      requires Valid()
      modifies appState, lruCache
      ensures Valid() && searching == !IsBlank(query)
      ensures !searching ==> appState.results == [] && lruCache.State() == Empty()
      ensures searching ==> appState.results == old(appState.results) && lruCache.State() == old(lruCache.State())
    {
      searching := !IsBlank(query);
      if !searching {
        lruCache.Clear();
        appState.results := [];
      }
    }

    /** The continuation of `handleSearch`: the cache is emptied, then the results replaced. */
    method SearchCompleted(found: seq<Key>)
      requires Valid()
      modifies appState, lruCache
      ensures Valid() && appState.results == found && lruCache.State() == Empty()
    {
      lruCache.Clear();
      appState.results := found;
    }

    /** `onQueryChange` at time `now`: the pending search is replaced by one for `text`, `SEARCH_DEBOUNCE_MS` later. */
    method OnQueryChange(text: string, now: int)
      modifies debounceTimer
      ensures debounceTimer.pending == Some(Debounce.Pending(text, now + SearchDebounceMs))
    {
      debounceTimer.Reschedule(text, now, SearchDebounceMs);
    }

    /** Time reaches `now`: an expired timer runs `handleSearch` with the latest text. */
    method DebounceElapsed(now: int) returns (searching: Option<string>)
      requires Valid()
      modifies appState, lruCache, debounceTimer
      ensures Valid()
      ensures var fired := Debounce.Fired(old(debounceTimer.pending), now);
        && debounceTimer.pending == Debounce.Remaining(old(debounceTimer.pending), now)
        && (fired.None? ==> searching == None && appState.results == old(appState.results) && lruCache.State() == old(lruCache.State()))
        && (fired.Some? && IsBlank(fired.value.query) ==> searching == None && appState.results == [] && lruCache.State() == Empty())
        && (fired.Some? && !IsBlank(fired.value.query) ==>
              searching == Some(fired.value.query) && appState.results == old(appState.results) && lruCache.State() == old(lruCache.State()))
    {
      var fired := debounceTimer.Elapse(now);
      searching := None;
      if fired.Some? {
        var issued := HandleSearch(fired.value.query);
        if issued {
          searching := Some(fired.value.query);
        }
      }
    }
  }

  /** `useVirtualizedList(results)`: the row cache of `CACHE_SIZE` entries. */
  class VirtualizedList {
    const lruCache: LRUCache<Option<Row>>

    ghost predicate Valid()
      reads this, lruCache
    {
      lruCache.Valid() && lruCache.capacity == CacheSize
    }

    constructor ()
      ensures Valid() && fresh(lruCache) && lruCache.State() == Empty()
    {
      lruCache := new LRUCache(CacheSize);
    }

    /** `isCellLoaded({ rowIndex })` is `lruCache.has(rowIndex)`: no recency change. */
    method IsCellLoaded(rowIndex: int) returns (loaded: bool)
      requires Valid()
      ensures loaded == Contains(lruCache.State(), rowIndex)
      ensures loaded <==> rowIndex in lruCache.State().entries
    {
      loaded := lruCache.Has(rowIndex);
    }

    /** `loadMoreRows` up to the fetch: the keys sent are `results.slice(startIndex, stopIndex + 1)`. */
    method LoadMoreRows(results: seq<Key>, startIndex: int, stopIndex: int) returns (rows: seq<Key>)
      ensures 0 <= startIndex <= stopIndex < |results| ==> rows == results[startIndex..stopIndex + 1]
      ensures 0 <= stopIndex + 1 <= startIndex ==> rows == []
      ensures rows == Slice(results, startIndex, stopIndex + 1)
    {
      rows := Slice(results, startIndex, stopIndex + 1);
    }

    /** The continuation of `loadMoreRows`: `fetched[i - startIndex]` is put at each i of the range, ascending. */
    method RowsLoaded(startIndex: int, stopIndex: int, fetched: seq<Option<Row>>)
      requires Valid()
      modifies lruCache
      ensures Valid()
      ensures var count := if stopIndex < startIndex then 0 else stopIndex - startIndex + 1;
        lruCache.State() == PutAll(old(lruCache.State()), CacheSize, RangePuts(startIndex, count, fetched))
    {
      var i := startIndex;
      while i <= stopIndex
        invariant startIndex <= i && (i <= stopIndex + 1 || i == startIndex)
        invariant Valid()
        invariant lruCache.State() == PutAll(old(lruCache.State()), CacheSize, RangePuts(startIndex, i - startIndex, fetched))
      {
        RangePutsSnoc(startIndex, i - startIndex, fetched);
        lruCache.Put(i, At(fetched, i - startIndex));
        i := i + 1;
      }
    }
  }

  /**
   * The list and the search share one cache. Whatever rows the list has
   * cached, a search (blank or not, once its answer is in) leaves none of
   * them cached, and the results are the new ones.
   */
  method SearchDropsCachedRows(search: SearchHook, list: VirtualizedList, query: string, found: seq<Key>)
    requires search.Valid() && list.Valid() && search.lruCache == list.lruCache
    modifies search.appState, search.lruCache
    ensures search.appState.results == (if IsBlank(query) then [] else found)
    ensures forall i :: !Contains(list.lruCache.State(), i)
  {
    var searching := search.HandleSearch(query);
    if searching {
      search.SearchCompleted(found);
    }
  }
}

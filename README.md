# Cardinal row cache and loaders, in Dafny

This project models the core of Cardinal's desktop front end: the parts that
decide which rows of a search result are fetched, where fetched rows are
kept, and what the list shows.

- `data_loader.dfy` (`useDataLoader`): a version counter fences stale
  fetches. The loader keeps a set of positions in flight, a position-to-row
  cache and a key-to-position map rebuilt for every result list.
  `ensureRangeLoaded` selects the rows to fetch and merges the answer while
  keeping icons already cached. `icon_update` events patch icons into cached
  rows or create icon-only entries.
- `virtual_list.dfy` (`VirtualList`): the clamped scroll offset, the window
  of row indices it shows, range updates that skip no-op changes, and the
  list's own batch loader, which has no version fence.
- `lru_cache.dfy` and `app.dfy` (`App.jsx`): the LRU cache, a `Map` whose
  insertion order is the recency order. Also the search, its 300 ms debounce
  and the batch of `put`s after `loadMoreRows`.
- `hooks.dfy` (`hooks/index.js`): the same search, debounce and batch load,
  written as hooks over `CACHE_SIZE` and `SEARCH_DEBOUNCE_MS`.
- `debounce.dfy`: the cancel-and-reschedule timer that both search
  handlers use, and a timeline proof that only the last input of a quiet
  window runs a search.
- `constants.dfy`, `column_resize.dfy`, `format.dfy`, `events.dfy`: the
  column-grid total, the drag-to-resize width clamp, thousands separators
  and result-count text of the native window, and the rescan decision for a
  file-system event.
- `nodes.dfy`: the values these share: row keys, row records, icons, and
  JavaScript's `xs[i]`, `slice` and `trim`.

Each component that changes state is a class whose fields are the
component's refs and state. A class either reassigns its fields to pure
functions of the old state (`State() == Issue(old(State()), start, end).0`)
or states the new value of each field. Its loops are proved against those
functions. The properties are proved as lemmas about the functions.

An `async` handler is split into two methods. The first runs up to the
`invoke` call and returns what is sent. The second is the continuation,
which takes the answer or a failure as a parameter. Tauri calls, timers,
DOM events and clocks are parameters. No program is run.

## Model

| member | source | states |
|---|---|---|
| `DataLoader.IndexMapOf` | cardinal/src/hooks/useDataLoader.js:27-33 | the key map holds exactly the non-null keys of the list, each mapped to a position that holds it; a repeated key maps to its last position |
| `DataLoader.IndexMapPositions` | cardinal/src/hooks/useDataLoader.js:28-32 | a key that does not occur again later maps to its own position |
| `DataLoader.Reset` | cardinal/src/hooks/useDataLoader.js:21-35 | new results raise the version by exactly one, empty the in-flight set and the cache, store the results (or `[]` for a non-array) and rebuild the key map from them |
| `DataLoader.Loader.constructor` | cardinal/src/hooks/useDataLoader.js:9-18 | the refs start at version 0 with nothing in flight, an empty cache, an empty list and an empty key map |
| `DataLoader.Loader.ResultsChanged` | cardinal/src/hooks/useDataLoader.js:21-35 | the reset effect with its `forEach` over the list reaches exactly the `Reset` state |
| `DataLoader.BatchSpec` | cardinal/src/hooks/useDataLoader.js:85-90 | the contract of `Batch`: the selection loop's batch is ascending and holds exactly the positions in the list that are uncached, not in flight and have a non-null key |
| `DataLoader.PlanLoad` | cardinal/src/hooks/useDataLoader.js:83-90 | the batch is empty for a negative start, an end before the start or an empty list, and otherwise is exactly the selected positions of [start, min(end, total-1)], ascending |
| `DataLoader.KeysFor` | cardinal/src/hooks/useDataLoader.js:94 | the keys sent are, in order, the non-null keys at the batch positions |
| `DataLoader.Issue` | cardinal/src/hooks/useDataLoader.js:83-95 | the batch is added to the in-flight set and sent with the current version, and the keys sent are the list's keys at the batch positions, one per position in batch order; an empty batch sends nothing and changes nothing; the version, cache and list are untouched |
| `DataLoader.Loader.EnsureRangeLoaded` | cardinal/src/hooks/useDataLoader.js:80-95 | the guard and the selection loop reach exactly the `Issue` state and request |
| `DataLoader.StoredRow` | cardinal/src/hooks/useDataLoader.js:104-108 | a truthy record is stored with its own attributes; its icon is the cached icon when that one is truthy and the fetched icon otherwise |
| `DataLoader.MergeSpec` | cardinal/src/hooks/useDataLoader.js:102-111 | the contract of `Merge`: for a batch without repeats, each position with a truthy record holds the stored row, each position with a falsy record keeps its old entry, and other positions are untouched |
| `DataLoader.Complete` | cardinal/src/hooks/useDataLoader.js:92-117 | every completion takes the whole batch out of the current in-flight set; a failure or a response for another version leaves the cache unchanged; version, list and key map never change |
| `DataLoader.CompleteSpec` | cardinal/src/hooks/useDataLoader.js:100-114 | a current-version success changes the cache exactly as `MergeSpec` says, position by position |
| `DataLoader.Loader.CompleteLoad` | cardinal/src/hooks/useDataLoader.js:96-118 | the version check, the merge loop and the removal loops reach exactly the `Complete` state |
| `DataLoader.ChangeFor` | cardinal/src/hooks/useDataLoader.js:46-54 | an update yields a change exactly when its key is in the key map and the row there is uncached or has a different icon; the change carries the position, the cached row and the new icon |
| `DataLoader.Patched` | cardinal/src/hooks/useDataLoader.js:63 | a patched row has the new icon and the cached row's attributes, or no attributes for a new icon-only entry |
| `DataLoader.IconUpdated` | cardinal/src/hooks/useDataLoader.js:43-68 | the icon handler never changes the version, the in-flight set, the list or the key map |
| `DataLoader.ChangesEmpty` | cardinal/src/hooks/useDataLoader.js:45-58 | the contract of `Changes`: no change is collected if and only if every update with a known key finds its row cached with that very icon |
| `DataLoader.IconUpdateNoChange` | cardinal/src/hooks/useDataLoader.js:57-58 | when no icon differs the state comes back identical |
| `DataLoader.ApplyChangesShape` | cardinal/src/hooks/useDataLoader.js:60-64 | a contract of `ApplyChanges`: after patching, untargeted positions keep their entries, every cached position stays cached, and every entry keeps its attributes |
| `DataLoader.ApplyChangesTargets` | cardinal/src/hooks/useDataLoader.js:60-64 | a contract of `ApplyChanges`: when no two updates target the same position, each targeted position holds its cached row, or an icon-only entry, with the update's icon |
| `DataLoader.ApplyChangesCovers` | cardinal/src/hooks/useDataLoader.js:62-64 | a contract of `ApplyChanges`: every position an update targets is present after patching |
| `DataLoader.ChangesSnoc` | cardinal/src/hooks/useDataLoader.js:47-64 | a payload with one more update yields no change exactly when the rest yields none and the last update's own change is empty; patching applies that last change after the others |
| `DataLoader.ApplyChangesChanged` | cardinal/src/hooks/useDataLoader.js:45-64 | a cached position that some update targets with a different icon ends with an icon other than its old one, whatever the other updates do |
| `DataLoader.IconUpdateSpec` | cardinal/src/hooks/useDataLoader.js:43-68 | the state is unchanged if and only if no icon differs; untargeted positions are untouched, and only icons change |
| `DataLoader.Loader.IconUpdate` | cardinal/src/hooks/useDataLoader.js:41-68 | the two `forEach` passes reach exactly the `IconUpdated` state |
| `DataLoader.ResetFences` | cardinal/src/hooks/useDataLoader.js:21-35 | a reset leaves a consistent state and makes every earlier request stale |
| `DataLoader.IssueWf` | cardinal/src/hooks/useDataLoader.js:84-90 | issuing keeps the state consistent (in-flight and cached positions inside the list, key map rebuilt from the list) and yields a request that fits the state |
| `DataLoader.CompleteWf` | cardinal/src/hooks/useDataLoader.js:100-114 | completing a fitting request keeps the state consistent |
| `DataLoader.IconUpdateWf` | cardinal/src/hooks/useDataLoader.js:47-63 | an icon update keeps the state consistent: it writes only positions the key map points to |
| `DataLoader.IssueTwiceDisjoint` | cardinal/src/hooks/useDataLoader.js:86-89 | two issues with no completion between them never batch the same position |
| `DataLoader.StaleResponseIsNoOp` | cardinal/src/hooks/useDataLoader.js:96-99 | a response for results that have since changed leaves the fresh state exactly as it is |
| `DataLoader.StaleCompletionDropsNewerMarks` | cardinal/src/hooks/useDataLoader.js:96-97 | a stale completion removes a position that a newer request holds in flight, so that position is fetched a second time |
| `DataLoader.IconOnlyEntryBlocksFetch` | cardinal/src/hooks/useDataLoader.js:63-86 | an icon update on an uncached row creates an icon-only entry, after which the row's record is never fetched |
| `VirtualList.MaxScrollTop` | cardinal/src/components/VirtualList.jsx:44 | the largest offset is 0 or the total height minus the viewport, whichever is larger |
| `VirtualList.ClampScroll` | cardinal/src/components/VirtualList.jsx:66 | the clamped offset lies in [0, maxScrollTop], equals the requested offset when that is in range, and otherwise sits at the nearer bound |
| `VirtualList.CeilDiv` | cardinal/src/components/VirtualList.jsx:52 | the rounded-up quotient q satisfies (q-1)·b < a ≤ q·b |
| `VirtualList.ComputeRange` | cardinal/src/components/VirtualList.jsx:49-57 | the window never starts below 0 or ends past the last row, and is {0, -1} when there are no rows or no viewport height; WindowCoversVisibleRows and WindowIsTight bound it from both sides |
| `VirtualList.ClampedWindowInBounds` | cardinal/src/components/VirtualList.jsx:44-57 | for a clamped offset, a positive row height and viewport, and overscan ≥ 0, the window satisfies 0 ≤ start ≤ end ≤ rowCount-1 |
| `VirtualList.WindowCoversVisibleRows` | cardinal/src/components/VirtualList.jsx:49-57 | with overscan ≥ 1, every row the viewport shows, even partly, is in the window |
| `VirtualList.WindowIsTight` | cardinal/src/components/VirtualList.jsx:49-57 | every row in the window lies within `overscan` rows of a row the viewport shows, so the window is no wider than the visible rows plus the overscan on each side |
| `VirtualList.NoOverscanMissesPartialRow` | cardinal/src/components/VirtualList.jsx:51-56 | without overscan a partly visible last row can fall outside the window |
| `VirtualList.UnclampedOffsetEscapesList` | cardinal/src/components/VirtualList.jsx:140-144 | an offset left over from a longer list gives a window that starts past the only row |
| `VirtualList.RenderedItems` | cardinal/src/components/VirtualList.jsx:155-171 | a non-empty window renders one row per index, each at its own offset minus the scroll offset with its cached record; an empty list or window renders nothing |
| `VirtualList.ListBatchSpec` | cardinal/src/components/VirtualList.jsx:76-81 | the contract of `ListBatch`: the batch is ascending and holds exactly the window positions that are neither cached nor loading |
| `VirtualList.PlanLoad` | cardinal/src/components/VirtualList.jsx:74-82 | no batch without results, for a negative start, an end before the start or an empty list; otherwise exactly the uncached, not-loading positions of [start, end] |
| `VirtualList.KeysOf` | cardinal/src/components/VirtualList.jsx:84 | the k-th key sent is `results[batch[k]]`, `undefined` past the end |
| `VirtualList.StoreAllSpec` | cardinal/src/components/VirtualList.jsx:86-93 | the contract of `StoreAll`: after a success each batch position holds the record at its offset (`undefined` past the response), and nothing else changes |
| `VirtualList.VirtualList.constructor` | cardinal/src/components/VirtualList.jsx:18-36 | the list starts with an empty cache and loading set, offset 0, viewport 0 and the empty window |
| `VirtualList.VirtualList.ViewportResized` | cardinal/src/components/VirtualList.jsx:132 | a measured viewport height is stored and nothing else changes |
| `VirtualList.VirtualList.SetRangeIfChanged` | cardinal/src/components/VirtualList.jsx:60-62 | the range is replaced only when its start or end differs, and the window equals the requested one either way |
| `VirtualList.RangeChanged` | cardinal/src/components/VirtualList.jsx:61 | a range counts as changed exactly when its start or its end differs |
| `VirtualList.VirtualList.UpdateScrollAndRange` | cardinal/src/components/VirtualList.jsx:65-69 | the offset is clamped into [0, maxScrollTop] and the window is computed from the clamped offset |
| `VirtualList.VirtualList.HandleWheel` | cardinal/src/components/VirtualList.jsx:102-105 | the wheel delta moves the offset, which is clamped like any other scroll |
| `VirtualList.VirtualList.ScrollToTop` | cardinal/src/components/VirtualList.jsx:149 | scrolling to the top sets offset 0 and the window from the first row |
| `VirtualList.VirtualList.RecomputeRange` | cardinal/src/components/VirtualList.jsx:140-144 | with a measured viewport the window follows the stored offset, which is not clamped again |
| `VirtualList.VirtualList.ResultsChanged` | cardinal/src/components/VirtualList.jsx:118-121 | new results empty the cache and the loading set; the offset and window stay |
| `VirtualList.VirtualList.EnsureRangeLoaded` | cardinal/src/components/VirtualList.jsx:73-82 | the loop marks exactly the `PlanLoad` batch as loading and issues a fetch only for a non-empty batch |
| `VirtualList.VirtualList.LoadCompleted` | cardinal/src/components/VirtualList.jsx:83-97 | a success stores the records by offset, with no version check; a failure only removes the loading marks |
| `VirtualList.VirtualList.AutoLoad` | cardinal/src/components/VirtualList.jsx:124-126 | a non-empty window is loaded; an empty one changes nothing |
| `VirtualList.LateFetchLandsAfterReset` | cardinal/src/components/VirtualList.jsx:86-92 | a fetch issued for old results lands in the cache after the results changed |
| `VirtualList.OverlappingLoadsAreDisjoint` | cardinal/src/components/VirtualList.jsx:76-81 | from any list state, two loads with no completion between them never ask for the same position |
| `LruCache.Lookup` | cardinal/src/App.jsx:14-18 | `get` finds a value exactly for a present key |
| `LruCache.Accessed` | cardinal/src/App.jsx:14-21 | a `get` of a missing key changes nothing; a present key moves to the most recent end with the others in order and all values kept |
| `LruCache.Inserted` | cardinal/src/App.jsx:24-32 | after `put` the key holds the value at the most recent end, and the size bound is kept |
| `LruCache.PutExistingKeepsOthers` | cardinal/src/App.jsx:25-31 | `put` on an existing key evicts nothing, keeps the size and every other value, and keeps the other keys in order |
| `LruCache.PutNewEvictsLeastRecent` | cardinal/src/App.jsx:27-31 | `put` of a new key into a full cache evicts exactly the least recently used key; below capacity it evicts nothing |
| `LruCache.Contains` | cardinal/src/App.jsx:34-36 | `has` answers whether `get` would find the key |
| `LruCache.PutAll` | cardinal/src/App.jsx:116-118 | a run of `put`s keeps the cache consistent and within its capacity |
| `LruCache.FillWithoutEviction` | cardinal/src/App.jsx:24-32 | up to the capacity, distinct puts into an empty cache evict nothing and keep their order |
| `LruCache.OverflowEvictsFirst` | cardinal/src/App.jsx:27-31 | one distinct put more than the capacity evicts exactly the first key |
| `LruCache.RangePuts` | cardinal/src/App.jsx:116-117 | the puts of a batch pair each index with the record at its offset |
| `LruCache.MoveKeepsRecent` | cardinal/src/App.jsx:25-31 | re-putting a stored key from outside the t most recent keeps those t keys, in order and with their values, and puts the key right after them |
| `LruCache.EvictKeepsRecent` | cardinal/src/App.jsx:27-31 | evicting the oldest key of more than t keys for a new one keeps the t most recent keys, in order and with their values, followed by the new key |
| `LruCache.AppendKeepsRecent` | cardinal/src/App.jsx:31 | adding a new key without eviction keeps the t most recent keys, in order and with their values, followed by the new key |
| `LruCache.InsertedKeepsRecent` | cardinal/src/App.jsx:24-32 | with room for more than t keys, a `put` of a key outside the t most recent keeps those t keys most recent, in order and with their values, followed by the new key |
| `LruCache.PutKeepsRecent` | cardinal/src/App.jsx:24-32 | a put of a new key extends a run of recent puts by that key and value |
| `LruCache.PutAllKeepsRecent` | cardinal/src/App.jsx:24-32 | at most `capacity` puts with distinct keys, into any cache, end as the most recent keys in put order, and each key holds its put value |
| `LruCache.LoadedRangeIsCached` | cardinal/src/App.jsx:116-118 | after a range no larger than the capacity is stored, every index of it holds the record at its offset |
| `LruCache.LRUCache.constructor` | cardinal/src/App.jsx:9-12 | a new cache has the given capacity and is empty |
| `LruCache.LRUCache.Get` | cardinal/src/App.jsx:14-22 | `get` returns the `Lookup` value and leaves the `Accessed` state |
| `LruCache.LRUCache.Put` | cardinal/src/App.jsx:24-32 | `put` leaves the `Inserted` state |
| `LruCache.LRUCache.Has` | cardinal/src/App.jsx:34-36 | `has` answers `Contains` and changes nothing |
| `LruCache.LRUCache.Clear` | cardinal/src/App.jsx:38-40 | `clear` empties the cache |
| `App.Session.constructor` | cardinal/src/App.jsx:52-55 | the app starts with no results, an empty cache of capacity 1000 and no pending timer |
| `App.Session.HandleSearch` | cardinal/src/App.jsx:86-91 | a blank query clears the cache and empties the results without searching; any other query issues the search and changes nothing yet |
| `App.Session.SearchCompleted` | cardinal/src/App.jsx:92-94 | the cache is cleared and the results replaced by the search's answer |
| `App.Session.OnQueryChange` | cardinal/src/App.jsx:97-103 | any pending search is replaced by one for the latest text, due 300 ms later |
| `App.Session.DebounceElapsed` | cardinal/src/App.jsx:100-102 | an expired timer fires once with its text and runs `handleSearch`; otherwise nothing happens |
| `App.Session.IsRowLoaded` | cardinal/src/App.jsx:105-109 | a row is loaded exactly when the cache has its index, and the recency order is untouched |
| `App.Session.LoadMoreRows` | cardinal/src/App.jsx:111-112 | the keys sent are `results.slice(startIndex, stopIndex + 1)` |
| `App.Session.RowsLoaded` | cardinal/src/App.jsx:116-118 | the loop puts the record at offset i - startIndex at every index i of the range, in ascending order (what that leaves cached is `LruCache.LoadedRangeIsCached`) |
| `Hooks.AppState.constructor` | cardinal/src/hooks/index.js:8 | the results start empty |
| `Hooks.SearchHook.constructor` | cardinal/src/hooks/index.js:34-35 | the hook works on the given results and cache, with no pending timer |
| `Hooks.SearchHook.HandleSearch` | cardinal/src/hooks/index.js:37-41 | a blank query clears the cache and empties the results without searching; any other query issues the search |
| `Hooks.SearchHook.SearchCompleted` | cardinal/src/hooks/index.js:42-43 | the cache is cleared before the results are replaced |
| `Hooks.SearchHook.OnQueryChange` | cardinal/src/hooks/index.js:46-52 | the pending search is replaced by one for the latest text, `SEARCH_DEBOUNCE_MS` later |
| `Hooks.SearchHook.DebounceElapsed` | cardinal/src/hooks/index.js:49-51 | an expired timer runs `handleSearch` once with the latest text |
| `Hooks.VirtualizedList.constructor` | cardinal/src/hooks/index.js:58 | the row cache is empty with capacity `CACHE_SIZE` |
| `Hooks.VirtualizedList.IsCellLoaded` | cardinal/src/hooks/index.js:67-68 | `isCellLoaded` is `has` on the cache: the index is a key of the cache |
| `Hooks.VirtualizedList.LoadMoreRows` | cardinal/src/hooks/index.js:70-71 | the keys sent are `results[startIndex..stopIndex]`, or none for an empty range |
| `Hooks.VirtualizedList.RowsLoaded` | cardinal/src/hooks/index.js:73-75 | the loop puts the record at offset i - startIndex at every index i of the range (what that leaves cached is `LruCache.LoadedRangeIsCached`) |
| `Hooks.SearchDropsCachedRows` | cardinal/src/hooks/index.js:37-44 | for a search hook and a list sharing one cache, in any state: once a search is done no row of the list stays cached, and the results are the new ones (`[]` for a blank query) |
| `Debounce.Fired` | cardinal/src/hooks/index.js:49-51 | a timer fires exactly when its due time is reached, with its own text |
| `Debounce.Remaining` | cardinal/src/hooks/index.js:49-51 | a fired timer is gone; an unfired one stays |
| `Debounce.Timer.constructor` | cardinal/src/hooks/index.js:35 | no search is pending at first |
| `Debounce.Timer.Reschedule` | cardinal/src/hooks/index.js:48-51 | the pending search is cancelled and one for the new text is due `delay` later |
| `Debounce.Timer.Elapse` | cardinal/src/App.jsx:100-102 | an expired timer fires once and is then gone |
| `Debounce.RunInvariant` | cardinal/src/hooks/index.js:46-52 | after each input, the pending search is that input's, and the searches run so far are those of the earlier quiet inputs |
| `Debounce.DebounceRunsQuietInputs` | cardinal/src/hooks/index.js:46-52 | the timer runs exactly one search per input followed by a quiet period, with that input's text, `delay` after it |
| `Debounce.DebouncedSearches` | cardinal/src/hooks/index.js:46-52 | feeding the inputs to one timer in order, then letting it run out, runs exactly the searches of the timeline: one per input followed by a quiet period |
| `Debounce.ThreeQuickInputsRunOneSearch` | cardinal/src/App.jsx:97-103 | inputs at 0, 100 and 150 ms run a single search, for the last text, at 450 ms |
| `Constants.DefaultColumnsTotal` | cardinal/src/constants/index.js:2-24 | the default widths sum to 1320 and the grid total is 1320 + 4·12 + 20 = 1388 |
| `Constants.SumWidths` | cardinal/src/constants/index.js:22 | no columns sum to 0, and with non-negative widths the sum is at least every single width |
| `Constants.ColumnsTotal` | cardinal/src/constants/index.js:21-24 | an empty record totals `COLUMNS_EXTRA - COL_GAP` (8), and with non-negative widths the total is at least any one width plus `COLUMNS_EXTRA` plus one gap per further column |
| `Constants.SumWidthsUpdate` | cardinal/src/constants/index.js:22 | replacing one width changes the sum by exactly the difference |
| `Constants.WidenColumn` | cardinal/src/constants/index.js:21-24 | widening one column by d widens the grid by exactly d |
| `Constants.AddColumn` | cardinal/src/constants/index.js:21-24 | a further column of width w widens the grid by w plus one gap |
| `ColumnResize.CssBound` | cardinal/src/hooks/useColumnResize.js:31-32 | a bound is the parsed CSS value when that is a non-zero number, and the fallback when the value is missing, NaN or 0 |
| `ColumnResize.ClampWidth` | cardinal/src/hooks/useColumnResize.js:33 | the width lies in [minW, maxW] when minW ≤ maxW, equals startW + delta when that is in bounds, and otherwise sits at the bound it crossed |
| `ColumnResize.NextWidth` | cardinal/src/hooks/useColumnResize.js:29-33 | the new width lies between the CSS bounds when they are ordered; it is the start width plus the mouse's travel when that lies between them, the lower bound when the drag goes below it, the upper bound when it goes past it, and the lower bound when the bounds are crossed |
| `ColumnResize.DefaultBoundsHold` | cardinal/src/hooks/useColumnResize.js:31-33 | without CSS overrides a drag keeps the width between 80 and 1200 |
| `ColumnResize.WidthOf` | cardinal/src/hooks/useColumnResize.js:15 | a width is found exactly for a key of the record |
| `ColumnResize.SetWidth` | cardinal/src/hooks/useColumnResize.js:35 | the record grows by at most one column, and every column of the result is the written one or a column of the old record |
| `ColumnResize.SetWidthKeepsDistinct` | cardinal/src/hooks/useColumnResize.js:35 | the record update never makes one key name two columns, as an object's properties cannot |
| `ColumnResize.SetWidthOnlyChangesKey` | cardinal/src/hooks/useColumnResize.js:35 | the record update gives the dragged column its new width and leaves every other column's width as it was |
| `ColumnResize.SetWidthTotal` | cardinal/src/hooks/useColumnResize.js:35 | resizing an existing column changes the grid total by exactly the change in its width |
| `ColumnResize.ColumnResizer.constructor` | cardinal/src/hooks/useColumnResize.js:5-6 | the widths start as the defaults, whose keys are distinct, and no drag is in progress |
| `ColumnResize.ColumnResizer.OnResizeStart` | cardinal/src/hooks/useColumnResize.js:8-16 | mouse-down records the column key, the mouse's x and the column's current width |
| `ColumnResize.ColumnResizer.OnResizing` | cardinal/src/hooks/useColumnResize.js:25-36 | a move without a drag changes nothing; with a drag, only the dragged column takes the clamped width; each key stays one column |
| `ColumnResize.ColumnResizer.OnResizeEnd` | cardinal/src/hooks/useColumnResize.js:38-43 | mouse-up ends the drag, so later moves change nothing |
| `Format.Digits` | cardinal-native/src/main.rs:145 | the decimal digits of a value: at least one, all digits, and 1, 2 or 3 of them exactly below 10, 100 and 1000 |
| `Format.DigitsRoundTrip` | cardinal-native/src/main.rs:145 | the digits read back as the value and have no leading zero |
| `Format.GroupedStripsToDigits` | cardinal-native/src/main.rs:144-157 | a contract of `Grouped`: removing the commas gives back exactly the digits |
| `Format.GroupedShape` | cardinal-native/src/main.rs:149-156 | a contract of `Grouped`: d digits get (d-1)/3 commas, exactly where a multiple of four characters remains, so there is no leading or trailing comma and every group after the first has three digits |
| `Format.FormatNumber` | cardinal-native/src/main.rs:144-158 | the loop's output is the grouped digits, with the digits, length and comma positions stated above |
| `Format.SmallNumbersUngrouped` | cardinal-native/src/main.rs:150-156 | values below 1000 get no separator |
| `Format.FormatNumberExamples` | cardinal-native/src/main.rs:133-158 | 128440 formats as "128,440" and 0 as "0" |
| `Format.FormatResultsText` | cardinal-native/src/main.rs:160-164 | a count of one reads "1 result"; any other count ends in " results"; the text starts with the formatted count |
| `Events.ShouldRescanCases` | cardinal-sdk/src/event.rs:27-33 | a rescan event always rescans; a node or folder event rescans exactly at the root; a no-op event never does |
| `Events.ShouldRescanIgnoresId` | cardinal-sdk/src/event.rs:27-33 | the decision depends only on the scan type and on whether the path is the root |
| `Events.ShouldRescanTestCases` | cardinal-sdk/src/event.rs:41-76 | the four cases of the unit test, with the scan type each flag stands for |
| `Events.ShouldRescan` | cardinal-sdk/src/event.rs:27-33 | away from the root an event rescans exactly when its scan type is a rescan; at the root every scan type but no-op rescans |
| `Nodes.Slice` | cardinal/src/App.jsx:112 | `slice` takes the elements between its clamped bounds, or none when they cross |
| `Nodes.At` | cardinal/src/components/VirtualList.jsx:84 | reading an array past its end gives `undefined` |
| `Nodes.TrimStart` | cardinal/src/hooks/index.js:39 | only leading whitespace is dropped: the result is a suffix, everything before it is whitespace, it is empty or starts with a non-whitespace character, and it is empty exactly when the text is all whitespace |
| `Nodes.TrimEnd` | cardinal/src/hooks/index.js:39 | only trailing whitespace is dropped: the result is a prefix, everything after it is whitespace, it is empty or ends with a non-whitespace character, and it is empty exactly when the text is all whitespace |
| `Nodes.Trim` | cardinal/src/hooks/index.js:39 | the trimmed text neither starts nor ends with whitespace, and is empty exactly when the text is all whitespace; TrimCutsOnlyWhitespace states what is cut |
| `Nodes.TrimCutsOnlyWhitespace` | cardinal/src/hooks/index.js:39 | the trimmed text is the slice of the input that begins after its leading whitespace, and everything before and after that slice is whitespace |
| `Nodes.IsBlank` | cardinal/src/App.jsx:89 | a query counts as blank exactly when every character is JavaScript whitespace |

## Left out

- Tauri IPC (`invoke`, `listen`, `once`): search results, fetched records and icon updates are parameters of the continuation methods. A failed call is `Failed`. The search's failure path is not modelled: an awaited `invoke("search")` that throws leaves the handler without clearing anything, and the model has no method for that.
- React scheduling: the `setCache` updaters, `cacheRef` and the state they feed are one sequential cache. A completion runs as one step, so the updater's second version check (cardinal/src/hooks/useDataLoader.js:101) is the same check as the first.
- Stale closures: `VirtualList`'s `ensureRangeLoaded` reads the `cache` of the render that created it. The model reads the current cache.
- `null` and `undefined` are one value (`None`) for keys, records and icons. The icon handler compares icons as JSON values (null or a string). So `current?.icon !== newIcon` is true for an uncached row and otherwise compares the cached icon with the new one.
- `DataLoader.IconUpdated`: a cached record that has no `icon` field, met by an update whose `icon` is `null`, is a change in JavaScript (`undefined !== null`, cardinal/src/hooks/useDataLoader.js:52), and the handler returns a new `Map` (cardinal/src/hooks/useDataLoader.js:61). The model sees `None` on both sides and returns the state unchanged. The cached entries are the same either way; only the `Map`'s identity differs.
- `DataLoader.ApplyChangesTargets`: stated only when no two updates in one payload target the same position; for repeated targets `DataLoader.ApplyChangesShape` still states which positions change and that only icons do.
- `ResizeObserver`, the DOM wheel and scroll events, horizontal scroll syncing, the `Scrollbar` component and the rendered markup. The wheel handler, the viewport measurement and the rendered rows' offsets are modelled as methods and a function over numbers.
- `VirtualList.VirtualList.RecomputeRange`: `rowHeight` and `overscan` are fixed when the list is built. In the source they are props (cardinal/src/components/VirtualList.jsx:20-21), and a change of either re-runs `computeRange` and the recompute effect (cardinal/src/components/VirtualList.jsx:57,139-144). The model only re-runs that effect for changes of the results, the viewport or the offset.
- `VirtualList.ComputeRange`: offsets and heights are whole pixels, and the row height must be positive. A row height of 0 divides by zero in JavaScript, giving Infinity or NaN, which the model does not represent. A negative height gives a finite window in JavaScript, but the model excludes it. The only row height the component gets is its default of 24 (cardinal/src/components/VirtualList.jsx:20).
- `react-virtualized` (`InfiniteLoader`, `List`, `AutoSizer`, `resetLoadMoreRowsCache`) and `rowRenderer`: library behaviour. The recency promotion caused by `rowRenderer`'s `get` is covered by `LruCache.LRUCache.Get` alone.
- `cardinal/src/utils/LRUCache` is not part of this model. The hooks are given the LRU cache of App.jsx, whose `get`, `put`, `has` and `clear` they use.
- `ColumnResize.ColumnResizer.OnResizeStart`: requires the key to be a column of the record. For an unknown key JavaScript would record `undefined` as the start width and later widths would be NaN.
- `MiddleEllipsis.jsx` (canvas text measurement in floating point), `formatKB` and `format_duration` (floating point), and the `Date`/`toLocaleString` rendering: floating point and foreign APIs.
- GPUI rendering, styling and demo data of the native window, apart from `format_number` and `format_results_text`.
- `FsEvent::from_raw` (C-string FFI) and `EventFlag::scan_type`: the scan type is an input of `Events.ShouldRescan`, and paths compare as plain strings.
- `was/src/main.rs`, `SearchBar.tsx`, `PermissionOverlay.tsx`, `FileRow.jsx` and `useContextMenu.js`: thread plumbing and presentation.
- The `status_update` and `init_completed` listeners and the status-bar fade timers: UI lifecycle.
- `Format.FormatNumber`: `usize` is taken to be 64 bits wide.

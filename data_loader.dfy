/**
 * The row loader of useDataLoader.js. It keeps a version counter that fences
 * stale fetches, the set of row positions in flight, a position-to-row cache
 * and a key-to-position map rebuilt for every new result list. Rows are
 * fetched in batches by `ensureRangeLoaded`, and `icon_update` events patch
 * icons into the cache.
 *
 * The pure functions below give the loader's state after each step; the
 * class `Loader` performs the same steps with the loops of the hook and is
 * proved to reach exactly those states. The `setCache` updaters and
 * `cacheRef` are one cache here, and an async step is split into the part up
 * to its `invoke` (which returns what is sent) and the continuation.
 */
module DataLoader {
  import opened Nodes

  /** The refs of the hook: `versionRef`, `loadingRef`, `cacheRef`, `resultsRef`, `indexMapRef`. */
  datatype LoaderState = LoaderState(
    version: nat,
    loading: set<int>,
    cache: map<int, Row>,
    list: seq<Option<Key>>,
    indexMap: map<Key, int>)

  /** A fetch in flight: the positions, the keys sent for them and the version it was issued under. */
  datatype Request = Request(batch: seq<int>, keys: seq<Key>, version: nat)

  /** One entry of an `icon_update` payload. */
  datatype IconUpdate = IconUpdate(slabIndex: Key, icon: Icon)

  /** An icon change found by the updater: the position, its cached row (if any) and the new icon. */
  datatype Change = Change(index: int, current: Option<Row>, newIcon: Icon)

  /** `map.get(i)`: `None` for an absent position. */
  function Get(cache: map<int, Row>, i: int): (r: Option<Row>)
    ensures r.Some? <==> i in cache
    ensures r.Some? ==> r.value == cache[i]
  {
    if i in cache then Some(cache[i]) else None
  }

  function Elems(s: seq<int>): set<int>
  {
    set i | i in s
  }

  /** The hook before its first effect runs. */
  function Initial(): LoaderState
  {
    LoaderState(0, {}, map[], [], map[])
  }

  // ---------------------------------------------------------------------------
  // The key-to-position map

  /**
   * The map built by the `forEach` over the list: every non-null key maps to a
   * position holding it, and a key that occurs more than once maps to its
   * last position.
   */
  function IndexMapOf(list: seq<Option<Key>>): (m: map<Key, int>)
    ensures forall k :: k in m <==> Some(k) in list
    ensures forall k :: k in m ==> 0 <= m[k] < |list| && list[m[k]] == Some(k)
    ensures forall k, j :: k in m && m[k] < j < |list| ==> list[j] != Some(k)
  {
    if list == [] then map[]
    else
      var n := |list| - 1;
      var m := IndexMapOf(list[..n]);
      assert list == list[..n] + [list[n]];
      if list[n].Some? then m[list[n].value := n] else m
  }

  /** The positions of the list are exactly the targets of the map's non-duplicated keys. */
  lemma IndexMapPositions(list: seq<Option<Key>>, i: int)
    requires 0 <= i < |list| && list[i].Some?
    requires forall j :: i < j < |list| ==> list[j] != list[i]
    ensures IndexMapOf(list)[list[i].value] == i
  {
    var m := IndexMapOf(list);
    assert list[i] == Some(list[i].value);
  }

  // ---------------------------------------------------------------------------
  // The results-change effect

  /**
   * New results: the version rises by one, nothing is in flight or cached,
   * the list becomes the results (or empty for a non-array) and the key map
   * is rebuilt from it.
   */
  function Reset(s: LoaderState, results: Option<seq<Option<Key>>>): (r: LoaderState)
    ensures r.version == s.version + 1 && r.loading == {} && r.cache == map[]
    ensures r.list == (if results.Some? then results.value else [])
    ensures r.indexMap == IndexMapOf(r.list)
  {
    var list := if results.Some? then results.value else [];
    LoaderState(s.version + 1, {}, map[], list, IndexMapOf(list))
  }

  // ---------------------------------------------------------------------------
  // ensureRangeLoaded, up to the fetch

  /** A position the loader fetches: in the list, not cached, not in flight, with a non-null key. */
  predicate Selected(s: LoaderState, i: int) {
    0 <= i < |s.list| && i !in s.cache && i !in s.loading && s.list[i].Some?
  }

  /** The selected positions among [start, start + count), ascending. */
  function Batch(s: LoaderState, start: int, count: nat): seq<int>
  {
    if count == 0 then []
    else
      var i := start + count - 1;
      Batch(s, start, count - 1) + (if Selected(s, i) then [i] else [])
  }

  lemma {:induction false} BatchSpec(s: LoaderState, start: int, count: nat)
    ensures var b := Batch(s, start, count);
      && Ascending(b)
      && (forall x :: x in b <==> start <= x < start + count && Selected(s, x))
  {
    if count > 0 {
      var b := Batch(s, start, count - 1);
      BatchSpec(s, start, count - 1);
      forall j | 0 <= j < |b|
        ensures b[j] < start + count - 1
      {
        assert b[j] in b;
      }
    }
  }

  /**
   * The batch of `ensureRangeLoaded(start, end)`: nothing for a negative start,
   * an end before the start or an empty list; otherwise exactly the selected
   * positions of [start, end], ascending (positions past the list never are).
   */
  function PlanLoad(s: LoaderState, start: int, end: int): (batch: seq<int>)
    ensures Ascending(batch)
    ensures forall x :: x in batch <==> 0 <= start <= x <= end && Selected(s, x)
  {
    if start < 0 || end < start || |s.list| == 0 || start >= |s.list| then []
    else
      var count := Min(end, |s.list| - 1) - start + 1;
      BatchSpec(s, start, count);
      Batch(s, start, count)
  }

  /** `keys` are the list's keys at the batch positions, in batch order. */
  predicate KeysOfBatch(list: seq<Option<Key>>, batch: seq<int>, keys: seq<Key>) {
    && |keys| == |batch|
    && forall k :: 0 <= k < |batch| ==> 0 <= batch[k] < |list| && list[batch[k]] == Some(keys[k])
  }

  /** `needLoading.map((i) => list[i])`: the keys of the batch. */
  function KeysFor(list: seq<Option<Key>>, batch: seq<int>): (keys: seq<Key>)
    requires forall k :: 0 <= k < |batch| ==> 0 <= batch[k] < |list| && list[batch[k]].Some?
    ensures KeysOfBatch(list, batch, keys)
  {
    seq(|batch|, k requires 0 <= k < |batch| => list[batch[k]].value)
  }

  /**
   * `ensureRangeLoaded(start, end)` up to the fetch: the batch is marked in
   * flight and sent, with the key of each of its positions, under the current
   * version; an empty batch sends nothing and changes nothing.
   */
  function Issue(s: LoaderState, start: int, end: int): (r: (LoaderState, Option<Request>))
    ensures r.0.version == s.version && r.0.cache == s.cache && r.0.list == s.list && r.0.indexMap == s.indexMap
    ensures r.0.loading == s.loading + Elems(PlanLoad(s, start, end))
    ensures r.1.None? <==> PlanLoad(s, start, end) == []
    ensures r.1.Some? ==> r.1.value.batch == PlanLoad(s, start, end) && r.1.value.version == s.version
    ensures r.1.Some? ==> KeysOfBatch(s.list, r.1.value.batch, r.1.value.keys)
  {
    var batch := PlanLoad(s, start, end);
    if batch == [] then (s, None)
    else
      assert forall k :: 0 <= k < |batch| ==> batch[k] in batch && Selected(s, batch[k]);
      var keys := KeysFor(s.list, batch);
      (s.(loading := s.loading + Elems(batch)), Some(Request(batch, keys, s.version)))
  }

  /** A non-empty plan is sent as it stands: its positions are marked and their keys sent under the current version. */
  lemma IssueSends(s: LoaderState, start: int, end: int)
    requires PlanLoad(s, start, end) != []
    ensures var batch := PlanLoad(s, start, end);
      && (forall k :: 0 <= k < |batch| ==> 0 <= batch[k] < |s.list| && s.list[batch[k]].Some?)
      && Issue(s, start, end) == (s.(loading := s.loading + Elems(batch)), Some(Request(batch, KeysFor(s.list, batch), s.version)))
  {
    var batch := PlanLoad(s, start, end);
    assert forall k :: 0 <= k < |batch| ==> batch[k] in batch;
  }

  // ---------------------------------------------------------------------------
  // ensureRangeLoaded, after the fetch

  /**
   * What a truthy fetched record becomes in the cache: the record itself,
   * with the icon already cached for the position kept when that icon is
   * truthy (`existing?.icon ?? item.icon`, then `icon ? { ...item, icon } : item`).
   */
  function StoredRow(existing: Option<Row>, item: Row): (r: Row)
    ensures r.attrs == item.attrs
    ensures existing.Some? && IsTruthy(existing.value.icon) ==> r.icon == existing.value.icon
    ensures !(existing.Some? && IsTruthy(existing.value.icon)) ==> r.icon == item.icon
  {
    var icon := if existing.Some? && existing.value.icon.Some? then existing.value.icon else item.icon;
    if IsTruthy(icon) then item.(icon := icon) else item
  }

  /** The updater's `forEach` over the first n batch positions: truthy records are stored, falsy ones skipped. */
  function Merge(cache: map<int, Row>, batch: seq<int>, records: seq<Option<Row>>, n: nat): map<int, Row>
    requires n <= |batch|
  {
    if n == 0 then cache
    else
      var c := Merge(cache, batch, records, n - 1);
      var item := At(records, n - 1);
      if item.None? then c else c[batch[n - 1] := StoredRow(Get(c, batch[n - 1]), item.value)]
  }

  /**
   * For a batch without repeats: a position with a truthy record holds it
   * (with the cached icon preserved), a position with a falsy record keeps
   * its old entry, and positions outside the batch are untouched.
   */
  lemma {:induction false} MergeSpec(cache: map<int, Row>, batch: seq<int>, records: seq<Option<Row>>, n: nat)
    requires n <= |batch| && Ascending(batch)
    ensures var m := Merge(cache, batch, records, n);
      && (forall k :: 0 <= k < n && At(records, k).Some? ==>
            Get(m, batch[k]) == Some(StoredRow(Get(cache, batch[k]), At(records, k).value)))
      && (forall k :: 0 <= k < n && At(records, k).None? ==> Get(m, batch[k]) == Get(cache, batch[k]))
      && (forall x :: x !in batch[..n] ==> Get(m, x) == Get(cache, x))
  {
    if n > 0 {
      var last := batch[n - 1];
      MergeSpec(cache, batch, records, n - 1);
      assert batch[..n] == batch[..n - 1] + [last];
      forall k | 0 <= k < n - 1
        ensures batch[k] != last
      {
        assert batch[k] < last;
      }
      assert last !in batch[..n - 1];
      assert Get(Merge(cache, batch, records, n - 1), last) == Get(cache, last);
    }
  }

  /**
   * The continuation of `ensureRangeLoaded`. A failure, or a response for an
   * older version, only takes the batch out of the current in-flight set; a
   * response for the current version is merged and takes the batch out too.
   */
  function Complete(s: LoaderState, req: Request, outcome: FetchOutcome): (r: LoaderState)
    ensures r.version == s.version && r.list == s.list && r.indexMap == s.indexMap
    ensures r.loading == s.loading - Elems(req.batch)
    ensures outcome.Failed? || req.version != s.version ==> r.cache == s.cache
  {
    var loading := s.loading - Elems(req.batch);
    if outcome.Failed? || s.version != req.version then s.(loading := loading)
    else s.(loading := loading, cache := Merge(s.cache, req.batch, outcome.records, |req.batch|))
  }

  /** A current-version success, position by position, for a batch from `Issue`. */
  lemma CompleteSpec(s: LoaderState, req: Request, records: seq<Option<Row>>)
    requires req.version == s.version && Ascending(req.batch)
    ensures var r := Complete(s, req, Fetched(records));
      && (forall k :: 0 <= k < |req.batch| && At(records, k).Some? ==>
            Get(r.cache, req.batch[k]) == Some(StoredRow(Get(s.cache, req.batch[k]), At(records, k).value)))
      && (forall k :: 0 <= k < |req.batch| && At(records, k).None? ==> Get(r.cache, req.batch[k]) == Get(s.cache, req.batch[k]))
      && (forall x :: x !in req.batch ==> Get(r.cache, x) == Get(s.cache, x))
  {
    MergeSpec(s.cache, req.batch, records, |req.batch|);
    assert req.batch[..|req.batch|] == req.batch;
  }

  // ---------------------------------------------------------------------------
  // The icon_update handler

  /** The change one update asks for: none for an unknown key or an unchanged icon. */
  function ChangeFor(indexMap: map<Key, int>, prev: map<int, Row>, u: IconUpdate): (cs: seq<Change>)
    ensures |cs| <= 1
    ensures |cs| == 1 <==>
      (u.slabIndex in indexMap && (indexMap[u.slabIndex] !in prev || prev[indexMap[u.slabIndex]].icon != u.icon))
    ensures |cs| == 1 ==> cs[0] == Change(indexMap[u.slabIndex], Get(prev, indexMap[u.slabIndex]), u.icon)
  {
    if u.slabIndex !in indexMap then []
    else
      var index := indexMap[u.slabIndex];
      var current := Get(prev, index);
      if current.None? || current.value.icon != u.icon then [Change(index, current, u.icon)] else []
  }

  /** The changes collected by the first `forEach`, in update order, all read against the same cache. */
  function Changes(indexMap: map<Key, int>, prev: map<int, Row>, updates: seq<IconUpdate>): seq<Change>
  {
    if updates == [] then []
    else Changes(indexMap, prev, updates[..|updates| - 1]) + ChangeFor(indexMap, prev, updates[|updates| - 1])
  }

  /** `current ? { ...current, icon: newIcon } : { icon: newIcon }`. */
  function Patched(current: Option<Row>, icon: Icon): (r: Row)
    ensures r.icon == icon
    ensures r.attrs == (if current.Some? then current.value.attrs else map[])
  {
    if current.Some? then current.value.(icon := icon) else Row(map[], icon)
  }

  /** The second `forEach`: each change is written in order into a copy of the cache. */
  function ApplyChanges(prev: map<int, Row>, changes: seq<Change>): map<int, Row>
  {
    if changes == [] then prev
    else
      var c := changes[|changes| - 1];
      ApplyChanges(prev, changes[..|changes| - 1])[c.index := Patched(c.current, c.newIcon)]
  }

  /** The `icon_update` handler: the identical cache when nothing differs, else a patched copy. */
  function IconUpdated(s: LoaderState, updates: seq<IconUpdate>): (r: LoaderState)
    ensures r.version == s.version && r.loading == s.loading && r.list == s.list && r.indexMap == s.indexMap
  {
    var changes := Changes(s.indexMap, s.cache, updates);
    if changes == [] then s else s.(cache := ApplyChanges(s.cache, changes))
  }

  /** An update targets position i when its key maps there. */
  predicate Targets(indexMap: map<Key, int>, u: IconUpdate, i: int) {
    u.slabIndex in indexMap && indexMap[u.slabIndex] == i
  }

  /** No update asks for a change: every known key's row is cached with that very icon. */
  predicate NothingDiffers(indexMap: map<Key, int>, prev: map<int, Row>, updates: seq<IconUpdate>) {
    forall j :: 0 <= j < |updates| && updates[j].slabIndex in indexMap ==>
      indexMap[updates[j].slabIndex] in prev && prev[indexMap[updates[j].slabIndex]].icon == updates[j].icon
  }

  /** One update more: no change so far and none from it; its change, if any, is written last. */
  lemma ChangesSnoc(indexMap: map<Key, int>, prev: map<int, Row>, updates: seq<IconUpdate>)
    requires updates != []
    ensures var n := |updates| - 1;
      var last := ChangeFor(indexMap, prev, updates[n]);
      var m := ApplyChanges(prev, Changes(indexMap, prev, updates[..n]));
      && (Changes(indexMap, prev, updates) == [] <==> Changes(indexMap, prev, updates[..n]) == [] && last == [])
      && ApplyChanges(prev, Changes(indexMap, prev, updates)) ==
           (if last == [] then m else m[last[0].index := Patched(last[0].current, last[0].newIcon)])
  {
    var n := |updates| - 1;
    var cs := Changes(indexMap, prev, updates[..n]);
    var last := ChangeFor(indexMap, prev, updates[n]);
    assert Changes(indexMap, prev, updates) == cs + last;
    if last != [] {
      assert |cs + last| == |cs| + 1 && (cs + last)[|cs|] == last[0];
      assert (cs + last)[..|cs|] == cs;
    } else {
      assert cs + last == cs;
    }
  }

  /** Nothing differs in a longer run exactly when nothing differs before the last update and it asks for no change. */
  lemma NothingDiffersSnoc(indexMap: map<Key, int>, prev: map<int, Row>, updates: seq<IconUpdate>)
    requires updates != []
    ensures var n := |updates| - 1;
      NothingDiffers(indexMap, prev, updates) <==>
        NothingDiffers(indexMap, prev, updates[..n]) && ChangeFor(indexMap, prev, updates[n]) == []
  {
    var n := |updates| - 1;
    assert forall j :: 0 <= j < n ==> updates[..n][j] == updates[j];
  }

  /** No change is collected exactly when nothing differs. */
  lemma {:induction false} ChangesEmpty(indexMap: map<Key, int>, prev: map<int, Row>, updates: seq<IconUpdate>)
    ensures Changes(indexMap, prev, updates) == [] <==> NothingDiffers(indexMap, prev, updates)
  {
    if updates != [] {
      ChangesEmpty(indexMap, prev, updates[..|updates| - 1]);
      ChangesSnoc(indexMap, prev, updates);
      NothingDiffersSnoc(indexMap, prev, updates);
    }
  }

  /** An update that changes no icon hands back the state unchanged. */
  lemma IconUpdateNoChange(s: LoaderState, updates: seq<IconUpdate>)
    requires NothingDiffers(s.indexMap, s.cache, updates)
    ensures IconUpdated(s, updates) == s
  {
    ChangesEmpty(s.indexMap, s.cache, updates);
  }

  /**
   * What the patched cache holds after the first n updates: a position no
   * update targets keeps its entry; a targeted position is present and keeps
   * its attributes (none for a new icon-only entry), only its icon changes.
   */
  lemma {:induction false} ApplyChangesShape(indexMap: map<Key, int>, prev: map<int, Row>, updates: seq<IconUpdate>)
    ensures var m := ApplyChanges(prev, Changes(indexMap, prev, updates));
      && (forall i :: (forall j :: 0 <= j < |updates| ==> !Targets(indexMap, updates[j], i)) ==> Get(m, i) == Get(prev, i))
      && (forall i :: i in m ==> m[i].attrs == (if i in prev then prev[i].attrs else map[]))
      && (forall i :: i in prev ==> i in m)
  {
    if updates != [] {
      var n := |updates| - 1;
      var init := updates[..n];
      ApplyChangesShape(indexMap, prev, init);
      ChangesSnoc(indexMap, prev, updates);
      assert forall j :: 0 <= j < n ==> init[j] == updates[j];
    }
  }

  /**
   * When no two updates target the same position, each targeted position
   * ends up as its cached row (or an icon-only entry) with the update's icon.
   */
  lemma {:induction false} ApplyChangesTargets(indexMap: map<Key, int>, prev: map<int, Row>, updates: seq<IconUpdate>)
    requires forall j1, j2 :: 0 <= j1 < j2 < |updates| && updates[j1].slabIndex in indexMap && updates[j2].slabIndex in indexMap ==>
      indexMap[updates[j1].slabIndex] != indexMap[updates[j2].slabIndex]
    ensures var m := ApplyChanges(prev, Changes(indexMap, prev, updates));
      forall j :: 0 <= j < |updates| && updates[j].slabIndex in indexMap ==>
        Get(m, indexMap[updates[j].slabIndex]) == Some(Patched(Get(prev, indexMap[updates[j].slabIndex]), updates[j].icon))
  {
    if updates != [] {
      var n := |updates| - 1;
      var init := updates[..n];
      assert forall j :: 0 <= j < n ==> init[j] == updates[j];
      ApplyChangesTargets(indexMap, prev, init);
      ApplyChangesShape(indexMap, prev, init);
      ChangesSnoc(indexMap, prev, updates);
      forall j | 0 <= j < |updates| && updates[j].slabIndex in indexMap
        ensures Get(ApplyChanges(prev, Changes(indexMap, prev, updates)), indexMap[updates[j].slabIndex])
          == Some(Patched(Get(prev, indexMap[updates[j].slabIndex]), updates[j].icon))
      {
        if j < n {
          assert init[j] == updates[j];
        } else {
          var p := indexMap[updates[n].slabIndex];
          assert forall k :: 0 <= k < n ==> !Targets(indexMap, init[k], p);
        }
      }
    }
  }

  /** The icon handler, as a whole: identity when nothing differs, and otherwise only icons of targeted positions change. */
  lemma IconUpdateSpec(s: LoaderState, updates: seq<IconUpdate>)
    ensures var r := IconUpdated(s, updates);
      && (NothingDiffers(s.indexMap, s.cache, updates) <==> r == s)
      && (forall i :: (forall j :: 0 <= j < |updates| ==> !Targets(s.indexMap, updates[j], i)) ==> Get(r.cache, i) == Get(s.cache, i))
      && (forall i :: i in r.cache ==> r.cache[i].attrs == (if i in s.cache then s.cache[i].attrs else map[]))
  {
    ChangesEmpty(s.indexMap, s.cache, updates);
    ApplyChangesShape(s.indexMap, s.cache, updates);
    if !NothingDiffers(s.indexMap, s.cache, updates) {
      var j :| 0 <= j < |updates| && updates[j].slabIndex in s.indexMap &&
        !(s.indexMap[updates[j].slabIndex] in s.cache && s.cache[s.indexMap[updates[j].slabIndex]].icon == updates[j].icon);
      var i := s.indexMap[updates[j].slabIndex];
      if i in s.cache {
        ApplyChangesChanged(s.indexMap, s.cache, updates, i, j);
      } else {
        ApplyChangesCovers(s.indexMap, s.cache, updates, j);
      }
    }
  }

  /** Every targeted position is present after the patch. */
  lemma {:induction false} ApplyChangesCovers(indexMap: map<Key, int>, prev: map<int, Row>, updates: seq<IconUpdate>, j: int)
    requires 0 <= j < |updates| && updates[j].slabIndex in indexMap
    ensures indexMap[updates[j].slabIndex] in ApplyChanges(prev, Changes(indexMap, prev, updates))
  {
    var n := |updates| - 1;
    var init := updates[..n];
    ChangesSnoc(indexMap, prev, updates);
    if j < n {
      assert init[j] == updates[j];
      ApplyChangesCovers(indexMap, prev, init, j);
    } else if ChangeFor(indexMap, prev, updates[n]) == [] {
      ApplyChangesShape(indexMap, prev, init);
    }
  }

  /**
   * A cached position that the `j`-th update targets with a different icon
   * ends with an icon other than its old one, whatever the other updates do.
   */
  lemma {:induction false} ApplyChangesChanged(indexMap: map<Key, int>, prev: map<int, Row>, updates: seq<IconUpdate>, i: int, j: int)
    requires i in prev
    requires 0 <= j < |updates| && Targets(indexMap, updates[j], i) && prev[i].icon != updates[j].icon
    ensures var m := ApplyChanges(prev, Changes(indexMap, prev, updates));
      i in m && m[i].icon != prev[i].icon
  {
    var n := |updates| - 1;
    var init := updates[..n];
    ChangesSnoc(indexMap, prev, updates);
    var last := ChangeFor(indexMap, prev, updates[n]);
    if last != [] && last[0].index == i {
      assert last[0].newIcon == updates[n].icon != prev[i].icon;
    } else {
      assert j != n;
      assert init[j] == updates[j];
      ApplyChangesChanged(indexMap, prev, init, i, j);
    }
  }

  // ---------------------------------------------------------------------------
  // Invariants kept by every step

  /**
   * The state is consistent: the key map is the one the list gives, and
   * every position in flight or cached lies inside the list.
   */
  ghost predicate Wf(s: LoaderState) {
    && s.indexMap == IndexMapOf(s.list)
    && (forall i :: i in s.loading ==> 0 <= i < |s.list|)
    && (forall i :: i in s.cache ==> 0 <= i < |s.list|)
  }

  /**
   * A request as `Issue` leaves it: issued under a version not yet passed,
   * ascending, and inside the list while that version is current.
   */
  ghost predicate IssuedFor(s: LoaderState, req: Request) {
    && req.version <= s.version
    && Ascending(req.batch)
    && (req.version == s.version ==> forall k :: 0 <= k < |req.batch| ==> 0 <= req.batch[k] < |s.list|)
  }

  /** New results give a consistent state, and every earlier request is now stale. */
  lemma ResetFences(s: LoaderState, results: Option<seq<Option<Key>>>, req: Request)
    requires IssuedFor(s, req)
    ensures Wf(Reset(s, results))
    ensures IssuedFor(Reset(s, results), req) && req.version < Reset(s, results).version
  {
  }

  /** Issuing keeps the state consistent and yields a request that fits it. */
  lemma IssueWf(s: LoaderState, start: int, end: int)
    requires Wf(s)
    ensures var r := Issue(s, start, end);
      Wf(r.0) && (r.1.Some? ==> IssuedFor(r.0, r.1.value))
  {
    var batch := PlanLoad(s, start, end);
    assert forall k :: 0 <= k < |batch| ==> batch[k] in batch;
  }

  /** A completion of a fitting request keeps the state consistent. */
  lemma CompleteWf(s: LoaderState, req: Request, outcome: FetchOutcome)
    requires Wf(s) && IssuedFor(s, req)
    ensures Wf(Complete(s, req, outcome))
  {
    if outcome.Fetched? && req.version == s.version {
      var m := Merge(s.cache, req.batch, outcome.records, |req.batch|);
      MergeSpec(s.cache, req.batch, outcome.records, |req.batch|);
      assert req.batch[..|req.batch|] == req.batch;
      forall i | i in m
        ensures 0 <= i < |s.list|
      {
        if i !in req.batch {
          assert Get(m, i) == Get(s.cache, i);
        } else {
          var k :| 0 <= k < |req.batch| && req.batch[k] == i;
        }
      }
    }
  }

  /** An icon update keeps the state consistent: it only writes positions the key map points to. */
  lemma IconUpdateWf(s: LoaderState, updates: seq<IconUpdate>)
    requires Wf(s)
    ensures Wf(IconUpdated(s, updates))
  {
    var r := IconUpdated(s, updates);
    ApplyChangesShape(s.indexMap, s.cache, updates);
    forall i | i in r.cache
      ensures 0 <= i < |s.list|
    {
      if exists j :: 0 <= j < |updates| && Targets(s.indexMap, updates[j], i) {
        var j :| 0 <= j < |updates| && Targets(s.indexMap, updates[j], i);
      } else {
        assert Get(r.cache, i) == Get(s.cache, i);
      }
    }
  }

  // ---------------------------------------------------------------------------
  // Consequences

  /** Two issues with no completion between them never fetch a position twice. */
  lemma IssueTwiceDisjoint(s: LoaderState, a: int, b: int, c: int, d: int)
    ensures var first := Issue(s, a, b);
      var second := Issue(first.0, c, d);
      forall x :: x in PlanLoad(s, a, b) ==> x !in PlanLoad(first.0, c, d)
  {
  }

  /** A response that arrives after the results changed is a no-op on the fresh state. */
  lemma StaleResponseIsNoOp(s: LoaderState, start: int, end: int, results: Option<seq<Option<Key>>>, outcome: FetchOutcome)
    requires Issue(s, start, end).1.Some?
    ensures var issued := Issue(s, start, end);
      var renewed := Reset(issued.0, results);
      Complete(renewed, issued.1.value, outcome) == renewed
  {
  }

  /** With one uncached, idle position holding a key, `Issue` for it marks that position and sends it alone. */
  lemma IssueLoneRow(s: LoaderState)
    requires |s.list| == 1 && s.list[0].Some? && s.cache == map[] && s.loading == {}
    ensures var (s1, req) := Issue(s, 0, 0);
      && s1 == s.(loading := {0})
      && req.Some? && req.value.batch == [0] && req.value.version == s.version
  {
    assert Batch(s, 0, 1) == [0];
  }

  /**
   * A stale completion removes its positions from the current in-flight set
   * even when a request for the new results holds them, so the same
   * position is fetched again while that request is still pending.
   */
  lemma StaleCompletionDropsNewerMarks(row: Row)
    ensures var s0 := Reset(Initial(), Some([Some(7)]));
      var (s1, stale) := Issue(s0, 0, 0);
      var s2 := Reset(s1, Some([Some(8)]));
      var (s3, pending) := Issue(s2, 0, 0);
      && stale.Some? && pending.Some? && pending.value.batch == [0] && s3.loading == {0}
      && var s4 := Complete(s3, stale.value, Fetched([Some(row)]));
        && s4.loading == {} && s4.cache == map[]
        && Issue(s4, 0, 0).1.Some? && Issue(s4, 0, 0).1.value.batch == [0]
  {
    var s0 := Reset(Initial(), Some([Some(7)]));
    IssueLoneRow(s0);
    var (s1, stale) := Issue(s0, 0, 0);
    var s2 := Reset(s1, Some([Some(8)]));
    IssueLoneRow(s2);
    var s3 := Issue(s2, 0, 0).0;
    var s4 := Complete(s3, stale.value, Fetched([Some(row)]));
    assert s4 == s2;
    IssueLoneRow(s4);
  }

  /**
   * An icon update for a row that is not cached creates an icon-only entry,
   * and that entry counts as cached: the row's record is then never fetched.
   */
  lemma IconOnlyEntryBlocksFetch(s: LoaderState, k: Key, i: int, icon: Icon)
    requires 0 <= i < |s.list| && s.list[i] == Some(k) && k in s.indexMap && s.indexMap[k] == i
    requires i !in s.cache && i !in s.loading
    ensures PlanLoad(s, i, i) == [i]
    ensures var r := IconUpdated(s, [IconUpdate(k, icon)]);
      r.cache == s.cache[i := Row(map[], icon)] && PlanLoad(r, i, i) == []
  {
    assert Batch(s, i, 1) == [i];
    var updates := [IconUpdate(k, icon)];
    assert updates[..0] == [];
    assert Changes(s.indexMap, s.cache, updates) == [Change(i, None, icon)];
    var r := IconUpdated(s, updates);
    assert [Change(i, None, icon)][..0] == [];
    assert ApplyChanges(s.cache, [Change(i, None, icon)]) == s.cache[i := Patched(None, icon)];
    assert r.cache == s.cache[i := Row(map[], icon)];
    assert !Selected(r, i);
    assert Batch(r, i, 1) == [];
  }

  // ---------------------------------------------------------------------------
  // The hook's refs, updated in place

  class Loader {
    var version: nat
    var loading: set<int>
    var cache: map<int, Row>
    var list: seq<Option<Key>>
    var indexMap: map<Key, int>

    function State(): LoaderState
      reads this
    {
      LoaderState(version, loading, cache, list, indexMap)
    }

    constructor ()
      ensures State() == Initial()
    {
      version := 0;
      loading := {};
      cache := map[];
      list := [];
      indexMap := map[];
    }

    /** The results-change effect; the key map is rebuilt by one pass over the new list. */
    method ResultsChanged(results: Option<seq<Option<Key>>>)
      modifies this
      ensures State() == Reset(old(State()), results)
    {
      var previous := version;
      var newList := if results.Some? then results.value else [];
      var m: map<Key, int> := map[];
      var i := 0;
      while i < |newList|
        invariant 0 <= i <= |newList|
        invariant m == IndexMapOf(newList[..i])
      {
        assert newList[..i + 1][..i] == newList[..i];
        if newList[i].Some? {
          m := m[newList[i].value := i];
        }
        i := i + 1;
      }
      assert newList[..i] == newList;
      version := previous + 1;
      loading := {};
      cache := map[];
      list := newList;
      indexMap := m;
    }

    /** `ensureRangeLoaded(start, end)` up to the fetch: the selection loop and the marks it sets. */
    method EnsureRangeLoaded(start: int, end: int) returns (request: Option<Request>)
      modifies this
      ensures State() == Issue(old(State()), start, end).0
      ensures request == Issue(old(State()), start, end).1
    {
      var total := |list|;
      if start < 0 || end < start || total == 0 {
        return None;
      }
      var needLoading: seq<int> := [];
      var i := start;
      while i <= end && i < total
        invariant start <= i && (i <= total || i == start)
        invariant i <= end + 1
        invariant needLoading == Batch(old(State()), start, i - start)
        invariant loading == old(loading) + Elems(needLoading)
        invariant forall x :: x in needLoading ==> x < i
        invariant version == old(version) && cache == old(cache) && list == old(list) && indexMap == old(indexMap)
      {
        if i !in cache && i !in loading && list[i].Some? {
          needLoading := needLoading + [i];
          loading := loading + {i};
        }
        i := i + 1;
      }
      ghost var planned := PlanLoad(old(State()), start, end);
      if start < total {
        assert i - start == Min(end, total - 1) - start + 1;
      }
      assert needLoading == planned;
      if needLoading == [] {
        return None;
      }
      IssueSends(old(State()), start, end);
      request := Some(Request(needLoading, KeysFor(list, needLoading), version));
    }

    /**
     * The continuation of `ensureRangeLoaded`: after a failure or a version
     * change only the marks go; otherwise each truthy record is merged and
     * every batch position leaves the in-flight set.
     */
    method CompleteLoad(request: Request, outcome: FetchOutcome)
      modifies this
      ensures State() == Complete(old(State()), request, outcome)
    {
      var batch := request.batch;
      if outcome.Failed? || version != request.version {
        var k := 0;
        while k < |batch|
          invariant 0 <= k <= |batch|
          invariant loading == old(loading) - Elems(batch[..k])
          invariant version == old(version) && cache == old(cache) && list == old(list) && indexMap == old(indexMap)
        {
          assert batch[..k + 1] == batch[..k] + [batch[k]];
          loading := loading - {batch[k]};
          k := k + 1;
        }
        assert batch[..k] == batch;
        return;
      }
      var records := outcome.records;
      var newCache := cache;
      var k := 0;
      while k < |batch|
        invariant 0 <= k <= |batch|
        invariant newCache == Merge(old(cache), batch, records, k)
        invariant loading == old(loading) - Elems(batch[..k])
        invariant version == old(version) && cache == old(cache) && list == old(list) && indexMap == old(indexMap)
      {
        assert batch[..k + 1] == batch[..k] + [batch[k]];
        var item := At(records, k);
        if item.Some? {
          var existing := Get(newCache, batch[k]);
          var icon := if existing.Some? && existing.value.icon.Some? then existing.value.icon else item.value.icon;
          newCache := newCache[batch[k] := if IsTruthy(icon) then item.value.(icon := icon) else item.value];
        }
        loading := loading - {batch[k]};
        k := k + 1;
      }
      assert batch[..k] == batch;
      cache := newCache;
    }

    /**
     * The `icon_update` handler: one pass collects the changes against the
     * current cache; without any the cache is left as it is, otherwise a
     * second pass writes them into a copy.
     */
    method IconUpdate(updates: seq<IconUpdate>)
      modifies this
      ensures State() == IconUpdated(old(State()), updates)
    {
      var prev := cache;
      var changes: seq<Change> := [];
      var j := 0;
      while j < |updates|
        invariant 0 <= j <= |updates|
        invariant changes == Changes(indexMap, prev, updates[..j])
      {
        assert updates[..j + 1][..j] == updates[..j];
        var u := updates[j];
        if u.slabIndex in indexMap {
          var index := indexMap[u.slabIndex];
          var current := Get(prev, index);
          if current.None? || current.value.icon != u.icon {
            changes := changes + [Change(index, current, u.icon)];
          }
        }
        j := j + 1;
      }
      assert updates[..j] == updates;
      if changes == [] {
        return;
      }
      var next := prev;
      var k := 0;
      while k < |changes|
        invariant 0 <= k <= |changes|
        invariant next == ApplyChanges(prev, changes[..k])
      {
        assert changes[..k + 1][..k] == changes[..k];
        var c := changes[k];
        next := next[c.index := if c.current.Some? then c.current.value.(icon := c.newIcon) else Row(map[], c.newIcon)];
        k := k + 1;
      }
      assert changes[..k] == changes;
      cache := next;
    }
  }
}

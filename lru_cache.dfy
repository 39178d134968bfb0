/**
 * The least-recently-used row cache of the search window (`LRUCache` in
 * App.jsx). A JavaScript `Map` keeps its keys in insertion order; deleting a
 * key and setting it again moves it to the end, so the first key is the least
 * recently used one. Here that order is a sequence of distinct keys next to a
 * map from keys to values.
 */
module LruCache {
  import opened Nodes

  /** The abstract contents of a cache: keys from least to most recently used, and their values. */
  datatype Lru<V> = Lru(order: seq<int>, entries: map<int, V>)

  ghost predicate Distinct(s: seq<int>) {
    forall i, j :: 0 <= i < j < |s| ==> s[i] != s[j]
  }

  /** The order lists exactly the stored keys, each once. */
  ghost predicate Wf<V>(c: Lru<V>) {
    && Distinct(c.order)
    && (forall k :: k in c.entries <==> k in c.order)
  }

  /** At most `capacity` entries, and at most one when the capacity is below one. */
  ghost predicate Bounded<V>(c: Lru<V>, capacity: int) {
    |c.order| <= capacity || |c.order| <= 1
  }

  /** `s` with every occurrence of `k` deleted, the other keys in their order. */
  function Remove(s: seq<int>, k: int): (r: seq<int>)
    ensures forall x :: x in r <==> x in s && x != k
    ensures |r| <= |s|
  {
    if s == [] then []
    else if s[0] == k then Remove(s[1..], k)
    else [s[0]] + Remove(s[1..], k)
  }

  lemma {:induction false} RemoveDistinct(s: seq<int>, k: int)
    requires Distinct(s)
    ensures Distinct(Remove(s, k))
    ensures k in s ==> |Remove(s, k)| == |s| - 1
    ensures k !in s ==> Remove(s, k) == s
  {
    if s != [] {
      assert Distinct(s[1..]) by {
        forall i, j | 0 <= i < j < |s[1..]| ensures s[1..][i] != s[1..][j] {
          assert s[1..][i] == s[i + 1] && s[1..][j] == s[j + 1];
        }
      }
      RemoveDistinct(s[1..], k);
      if s[0] == k {
        assert k !in s[1..] by {
          forall j | 0 <= j < |s[1..]| ensures s[1..][j] != k {
            assert s[1..][j] == s[j + 1];
          }
        }
      } else {
        var r := [s[0]] + Remove(s[1..], k);
        assert s[0] !in Remove(s[1..], k) by {
          forall j | 0 <= j < |s[1..]| ensures s[1..][j] != s[0] {
            assert s[1..][j] == s[j + 1];
          }
        }
        forall i, j | 0 <= i < j < |r| ensures r[i] != r[j] {
          if i == 0 {
            assert r[j] == Remove(s[1..], k)[j - 1];
          } else {
            assert r[i] == Remove(s[1..], k)[i - 1] && r[j] == Remove(s[1..], k)[j - 1];
          }
        }
        if k !in s {
          assert s == [s[0]] + s[1..];
        }
      }
    }
  }

  /** Deleting `k` after appending a different key is appending after deleting `k`. */
  lemma {:induction false} RemoveAppend(s: seq<int>, x: int, k: int)
    ensures Remove(s + [x], k) == Remove(s, k) + (if x == k then [] else [x])
  {
    if s == [] {
      assert [x][1..] == [];
    } else {
      assert (s + [x])[1..] == s[1..] + [x];
      RemoveAppend(s[1..], x, k);
    }
  }

  /** Appending a key that is not already listed keeps the keys distinct. */
  lemma AppendDistinct(s: seq<int>, k: int)
    requires Distinct(s) && k !in s
    ensures Distinct(s + [k])
  {
    forall i, j | 0 <= i < j < |s + [k]| ensures (s + [k])[i] != (s + [k])[j] {
      assert (s + [k])[i] == s[i];
    }
  }

  /** The empty cache. */
  function Empty<V>(): (c: Lru<V>)
    ensures Wf(c) && c.entries == map[] && |c.order| == 0
  {
    Lru([], map[])
  }

  /** What `get(key)` returns: the value, or `undefined` (None) for a missing key. */
  function Lookup<V>(c: Lru<V>, k: int): (r: Option<V>)
    ensures r.Some? <==> k in c.entries
    ensures r.Some? ==> r.value == c.entries[k]
  {
    if k in c.entries then Some(c.entries[k]) else None
  }

  /**
   * The cache after `get(key)`: a missing key changes nothing; a present key
   * becomes the most recently used one, the others keep their relative order,
   * and no value changes.
   */
  function Accessed<V>(c: Lru<V>, k: int): (r: Lru<V>)
    requires Wf(c)
    ensures Wf(r) && r.entries == c.entries && |r.order| == |c.order|
    ensures k !in c.entries ==> r == c
    ensures k in c.entries ==> r.order[|r.order| - 1] == k && Remove(r.order, k) == Remove(c.order, k)
  {
    if k !in c.entries then c
    else
      RemoveDistinct(c.order, k);
      AppendDistinct(Remove(c.order, k), k);
      RemoveAppend(Remove(c.order, k), k, k);
      RemoveIdempotent(c.order, k);
      Lru(Remove(c.order, k) + [k], c.entries)
  }

  lemma {:induction false} RemoveIdempotent(s: seq<int>, k: int)
    ensures Remove(Remove(s, k), k) == Remove(s, k)
  {
    if s != [] {
      RemoveIdempotent(s[1..], k);
      if s[0] != k {
        assert ([s[0]] + Remove(s[1..], k))[1..] == Remove(s[1..], k);
      }
    }
  }

  /**
   * The cache after `put(key, value)`: an existing key takes the new value and
   * moves to the most-recently-used end; a new key is appended, after the
   * least recently used key is evicted when the cache already holds
   * `capacity` or more entries.
   */
  function Inserted<V>(c: Lru<V>, capacity: int, k: int, v: V): (r: Lru<V>)
    requires Wf(c)
    ensures Wf(r) && k in r.entries && r.entries[k] == v && r.order[|r.order| - 1] == k
    ensures Bounded(c, capacity) ==> Bounded(r, capacity)
  {
    if k in c.entries then
      RemoveDistinct(c.order, k);
      AppendDistinct(Remove(c.order, k), k);
      Lru(Remove(c.order, k) + [k], c.entries[k := v])
    else if |c.order| >= capacity && |c.order| > 0 then
      var rest := c.order[1..];
      assert Distinct(rest) && k !in rest by {
        forall i, j | 0 <= i < j < |rest| ensures rest[i] != rest[j] {
          assert rest[i] == c.order[i + 1] && rest[j] == c.order[j + 1];
        }
      }
      AppendDistinct(rest, k);
      assert forall x :: x in rest <==> x in c.order && x != c.order[0] by {
        forall x ensures x in rest <==> x in c.order && x != c.order[0] {
          if x in c.order && x != c.order[0] {
            var i :| 0 <= i < |c.order| && c.order[i] == x;
            assert rest[i - 1] == x;
          }
          if x in rest {
            var i :| 0 <= i < |rest| && rest[i] == x;
            assert c.order[i + 1] == x;
          }
        }
      }
      Lru(rest + [k], (c.entries - {c.order[0]})[k := v])
    else
      AppendDistinct(c.order, k);
      Lru(c.order + [k], c.entries[k := v])
  }

  /** An existing key is overwritten in place: nothing is evicted and the size is unchanged. */
  lemma PutExistingKeepsOthers<V>(c: Lru<V>, capacity: int, k: int, v: V)
    requires Wf(c) && k in c.entries
    ensures var r := Inserted(c, capacity, k, v);
      && r.entries.Keys == c.entries.Keys
      && |r.order| == |c.order|
      && (forall x :: x in c.entries && x != k ==> r.entries[x] == c.entries[x])
      && Remove(r.order, k) == Remove(c.order, k)
  {
    RemoveDistinct(c.order, k);
    RemoveAppend(Remove(c.order, k), k, k);
    RemoveIdempotent(c.order, k);
  }

  /**
   * A new key in a full cache evicts exactly the least recently used key
   * (the head of the order); below capacity nothing is evicted.
   */
  lemma PutNewEvictsLeastRecent<V>(c: Lru<V>, capacity: int, k: int, v: V)
    requires Wf(c) && k !in c.entries
    ensures var r := Inserted(c, capacity, k, v);
      && (|c.order| >= capacity && |c.order| > 0 ==>
            r.entries.Keys == c.entries.Keys - {c.order[0]} + {k} && |r.order| == |c.order|)
      && (|c.order| < capacity ==> r.entries.Keys == c.entries.Keys + {k} && |r.order| == |c.order| + 1)
      && (forall x :: x in r.entries && x != k ==> x in c.entries && r.entries[x] == c.entries[x])
  {
  }

  /** `has(key)` reads the cache and changes nothing. */
  function Contains<V>(c: Lru<V>, k: int): (b: bool)
    ensures b <==> Lookup(c, k).Some?
  {
    k in c.entries
  }

  /** The state after a sequence of `put`s, applied in order. */
  function PutAll<V>(c: Lru<V>, capacity: int, puts: seq<(int, V)>): (r: Lru<V>)
    requires Wf(c)
    ensures Wf(r)
    ensures Bounded(c, capacity) ==> Bounded(r, capacity)
    decreases |puts|
  {
    if puts == [] then c
    else
      var last := puts[|puts| - 1];
      Inserted(PutAll(c, capacity, puts[..|puts| - 1]), capacity, last.0, last.1)
  }

  /** The keys of a run of `put`s, in order. */
  ghost function PutKeys<V>(puts: seq<(int, V)>): seq<int> {
    seq(|puts|, i requires 0 <= i < |puts| => puts[i].0)
  }

  /** Up to the capacity, putting distinct keys into an empty cache evicts nothing and keeps them in order. */
  lemma {:induction false} FillWithoutEviction<V>(capacity: int, puts: seq<(int, V)>)
    requires |puts| <= capacity
    requires Distinct(PutKeys(puts))
    ensures PutAll(Empty(), capacity, puts).order == PutKeys(puts)
  {
    if puts != [] {
      var init := puts[..|puts| - 1];
      DistinctKeysPrefix(puts);
      FillWithoutEviction(capacity, init);
      var last := puts[|puts| - 1];
      assert PutKeys(puts) == PutKeys(init) + [last.0];
    }
  }

  /**
   * After putting C + 1 distinct keys into an empty cache of capacity C >= 1,
   * exactly the first (least recently used) key is gone and the other C are present.
   */
  lemma OverflowEvictsFirst<V>(capacity: int, puts: seq<(int, V)>)
    requires capacity >= 1 && |puts| == capacity + 1
    requires Distinct(PutKeys(puts))
    ensures var r := PutAll(Empty(), capacity, puts);
      && !Contains(r, puts[0].0)
      && forall i :: 1 <= i < |puts| ==> Contains(r, puts[i].0)
  {
    var init := puts[..capacity];
    DistinctKeysPrefix(puts);
    FillWithoutEviction(capacity, init);
    var c := PutAll(Empty(), capacity, init);
    var last := puts[capacity];
    assert puts[..|puts| - 1] == init;
    assert last.0 !in c.order;
    PutNewEvictsLeastRecent(c, capacity, last.0, last.1);
    assert c.order[0] == puts[0].0;
    forall i | 1 <= i < |puts| ensures Contains(PutAll(Empty(), capacity, puts), puts[i].0) {
      if i < capacity {
        assert c.order[i] == puts[i].0 && puts[i].0 != puts[0].0 by {
          assert PutKeys(puts)[i] == puts[i].0 && PutKeys(puts)[0] == puts[0].0;
        }
      }
    }
  }

  /** Deleting a key that does not occur changes nothing. */
  lemma {:induction false} RemoveAbsent(s: seq<int>, k: int)
    requires k !in s
    ensures Remove(s, k) == s
  {
    if s != [] {
      assert forall x :: x in s[1..] ==> x in s;
      RemoveAbsent(s[1..], k);
      assert s == [s[0]] + s[1..];
    }
  }

  /** Deleting a key that is not in `b` from `a + b` only touches `a`. */
  lemma {:induction false} RemoveConcat(a: seq<int>, b: seq<int>, k: int)
    requires k !in b
    ensures Remove(a + b, k) == Remove(a, k) + b
  {
    if a == [] {
      assert a + b == b;
      RemoveAbsent(b, k);
    } else {
      assert (a + b)[1..] == a[1..] + b;
      RemoveConcat(a[1..], b, k);
    }
  }

  /**
   * `r` is `c` after a put of `k`: the `t` most recent keys of `c` are
   * followed by `k` at the most recent end of `r`, and keep their values.
   */
  ghost predicate RecentKept<V>(c: Lru<V>, r: Lru<V>, t: nat, k: int)
    requires t <= |c.order|
  {
    && t + 1 <= |r.order|
    && r.order[|r.order| - (t + 1)..] == c.order[|c.order| - t..] + [k]
    && forall x :: x in c.order[|c.order| - t..] ==> x in c.entries && x in r.entries && r.entries[x] == c.entries[x]
  }

  /** `put` of a stored key outside the `t` most recent moves it behind them. */
  lemma MoveKeepsRecent<V>(c: Lru<V>, t: nat, k: int, v: V)
    requires Wf(c) && k in c.entries && t <= |c.order| && k !in c.order[|c.order| - t..]
    ensures RecentKept(c, Lru(Remove(c.order, k) + [k], c.entries[k := v]), t, k)
  {
    var s := c.order;
    var prefix, suffix := s[..|s| - t], s[|s| - t..];
    var order := Remove(s, k) + [k];
    assert t + 1 <= |order| && order[|order| - (t + 1)..] == suffix + [k] by {
      assert s == prefix + suffix;
      RemoveDistinct(s, k);
      RemoveConcat(prefix, suffix, k);
      assert order == Remove(prefix, k) + suffix + [k];
    }
    forall x | x in suffix ensures x in c.entries && x in c.entries[k := v] && c.entries[k := v][x] == c.entries[x] {
      assert x in s && x != k;
    }
  }

  /** `put` of a new key into a cache of more than `t` keys that evicts the least recent one. */
  lemma EvictKeepsRecent<V>(c: Lru<V>, t: nat, k: int, v: V)
    requires Wf(c) && k !in c.entries && t < |c.order|
    ensures RecentKept(c, Lru(c.order[1..] + [k], (c.entries - {c.order[0]})[k := v]), t, k)
  {
    var s := c.order;
    assert (s[1..] + [k])[|s| - (t + 1)..] == s[|s| - t..] + [k];
    var suffix := s[|s| - t..];
    forall i | 0 <= i < |suffix| ensures suffix[i] != s[0] {
      assert suffix[i] == s[|s| - t + i];
    }
  }

  /** `put` of a new key with no eviction appends it. */
  lemma AppendKeepsRecent<V>(c: Lru<V>, t: nat, k: int, v: V)
    requires Wf(c) && k !in c.entries && t <= |c.order|
    ensures RecentKept(c, Lru(c.order + [k], c.entries[k := v]), t, k)
  {
    assert (c.order + [k])[|c.order| - t..] == c.order[|c.order| - t..] + [k];
  }

  /**
   * One insert, when more than `t` keys fit, of a key that is not among the
   * `t` most recently used: those `t` keys stay the most recent, in order and
   * with their values, followed by the new key.
   */
  lemma InsertedKeepsRecent<V>(c: Lru<V>, capacity: int, t: nat, k: int, v: V)
    requires Wf(c) && t < capacity && t <= |c.order|
    requires k !in c.order[|c.order| - t..]
    ensures RecentKept(c, Inserted(c, capacity, k, v), t, k)
  {
    if k in c.entries {
      MoveKeepsRecent(c, t, k, v);
    } else if |c.order| >= capacity && |c.order| > 0 {
      EvictKeepsRecent(c, t, k, v);
    } else {
      AppendKeepsRecent(c, t, k, v);
    }
  }

  /** Dropping the last put of a run with distinct keys keeps them distinct, and the last key is not among the rest. */
  lemma DistinctKeysPrefix<V>(puts: seq<(int, V)>)
    requires puts != [] && Distinct(PutKeys(puts))
    ensures Distinct(PutKeys(puts[..|puts| - 1]))
    ensures puts[|puts| - 1].0 !in PutKeys(puts[..|puts| - 1])
  {
    var t := |puts| - 1;
    var init := puts[..t];
    forall i | 0 <= i < |init| ensures PutKeys(init)[i] == PutKeys(puts)[i] {
    }
    assert puts[t].0 == PutKeys(puts)[t];
  }

  /**
   * The keys of the run `puts` are the most recently used ones of `c`, in put
   * order, and each holds its put value.
   */
  ghost predicate HoldsRecent<V>(c: Lru<V>, puts: seq<(int, V)>) {
    && |puts| <= |c.order|
    && c.order[|c.order| - |puts|..] == PutKeys(puts)
    && forall j :: 0 <= j < |puts| ==> Lookup(c, puts[j].0) == Some(puts[j].1)
  }

  /** The step of `PutAllKeepsRecent`: one more put, of a key not yet in the run. */
  lemma PutKeepsRecent<V>(r0: Lru<V>, capacity: int, init: seq<(int, V)>, k: int, v: V)
    requires Wf(r0) && |init| < capacity && HoldsRecent(r0, init)
    requires k !in PutKeys(init)
    ensures HoldsRecent(Inserted(r0, capacity, k, v), init + [(k, v)])
  {
    var t := |init|;
    var r, puts := Inserted(r0, capacity, k, v), init + [(k, v)];
    InsertedKeepsRecent(r0, capacity, t, k, v);
    assert PutKeys(puts) == PutKeys(init) + [k];
    forall j | 0 <= j < |puts| ensures Lookup(r, puts[j].0) == Some(puts[j].1) {
      if j < t {
        assert puts[j] == init[j] && Lookup(r0, init[j].0) == Some(init[j].1);
        assert init[j].0 == PutKeys(init)[j] && init[j].0 in r0.order[|r0.order| - t..];
      } else {
        assert puts[j] == (k, v);
      }
    }
  }

  /**
   * A run of at most `capacity` puts with distinct keys, into any cache: the
   * put keys end as the most recently used ones, in put order, and every one
   * of them holds its put value (none of them is evicted).
   */
  lemma {:induction false} PutAllKeepsRecent<V>(c: Lru<V>, capacity: int, puts: seq<(int, V)>)
    requires Wf(c) && |puts| <= capacity
    requires Distinct(PutKeys(puts))
    ensures HoldsRecent(PutAll(c, capacity, puts), puts)
  {
    if puts != [] {
      var t := |puts| - 1;
      var init := puts[..t];
      DistinctKeysPrefix(puts);
      PutAllKeepsRecent(c, capacity, init);
      var r0 := PutAll(c, capacity, init);
      assert PutAll(c, capacity, puts) == Inserted(r0, capacity, puts[t].0, puts[t].1);
      PutKeepsRecent(r0, capacity, init, puts[t].0, puts[t].1);
      assert puts == init + [(puts[t].0, puts[t].1)];
    }
  }

  /**
   * The puts of a loaded row range: row `start + j` gets the j-th fetched
   * record, or `undefined` (None) past the end of the response.
   */
  function RangePuts<V>(start: int, count: nat, fetched: seq<Option<V>>): (puts: seq<(int, Option<V>)>)
    ensures |puts| == count
    ensures forall j :: 0 <= j < count ==> puts[j] == (start + j, At(fetched, j))
  {
    seq(count, j requires 0 <= j < count => (start + j, At(fetched, j)))
  }

  lemma RangePutsSnoc<V>(start: int, count: nat, fetched: seq<Option<V>>)
    ensures RangePuts(start, count + 1, fetched)[..count] == RangePuts(start, count, fetched)
  {
  }

  /**
   * After `loadMoreRows` stores a range of at most `capacity` rows, every row
   * of the range is cached with the record fetched for it.
   */
  lemma LoadedRangeIsCached<V>(c: Lru<Option<V>>, capacity: int, start: int, count: nat, fetched: seq<Option<V>>)
    requires Wf(c) && count <= capacity
    ensures forall i :: start <= i < start + count ==>
      Lookup(PutAll(c, capacity, RangePuts(start, count, fetched)), i) == Some(At(fetched, i - start))
  {
    var puts := RangePuts(start, count, fetched);
    assert Distinct(PutKeys(puts)) by {
      forall i, j | 0 <= i < j < |puts| ensures PutKeys(puts)[i] != PutKeys(puts)[j] {
        assert PutKeys(puts)[i] == start + i && PutKeys(puts)[j] == start + j;
      }
    }
    PutAllKeepsRecent(c, capacity, puts);
    assert HoldsRecent(PutAll(c, capacity, puts), puts);
    forall i | start <= i < start + count
      ensures Lookup(PutAll(c, capacity, puts), i) == Some(At(fetched, i - start))
    {
      assert puts[i - start] == (i, At(fetched, i - start));
    }
  }

  /** The cache itself (App.jsx), a `Map` field updated in place. */
  class LRUCache<V> {
    const capacity: int
    var order: seq<int>
    var entries: map<int, V>

    function State(): Lru<V>
      reads this
    {
      Lru(order, entries)
    }

    ghost predicate Valid()
      reads this
    {
      Wf(State()) && Bounded(State(), capacity)
    }

    constructor (capacity: int)
      ensures Valid() && this.capacity == capacity && State() == Empty()
    {
      this.capacity := capacity;
      order := [];
      entries := map[];
    }

    method Get(key: int) returns (value: Option<V>)
      requires Valid()
      modifies this
      ensures Valid() && value == Lookup(old(State()), key)
      ensures State() == Accessed(old(State()), key)
    {
      if key !in entries {
        return None;
      }
      ghost var before := State();
      value := Some(entries[key]);
      order := Remove(order, key) + [key];
      assert State() == Accessed(before, key);
    }

    method Put(key: int, value: V)
      requires Valid()
      modifies this
      ensures Valid() && State() == Inserted(old(State()), capacity, key, value)
    {
      ghost var before := State();
      if key in entries {
        order := Remove(order, key);
      } else if |order| >= capacity && |order| > 0 {
        var oldest := order[0];
        order := order[1..];
        entries := entries - {oldest};
      }
      order := order + [key];
      entries := entries[key := value];
      assert State() == Inserted(before, capacity, key, value);
    }

    method Has(key: int) returns (present: bool)
      requires Valid()
      ensures present == Contains(State(), key)
    {
      present := key in entries;
    }

    method Clear()
      requires Valid()
      modifies this
      ensures Valid() && State() == Empty()
    {
      order := [];
      entries := map[];
    }
  }
}

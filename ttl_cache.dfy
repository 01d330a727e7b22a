/**
 * The bounded in-memory response cache shared by the three complaint API
 * routes: a JavaScript `Map` from cache key to a time-stamped response.
 * A lookup returns the response while it is younger than the time-to-live
 * and otherwise deletes the key; a store inserts or overwrites the key and,
 * when the map has grown past its capacity, evicts the first key in
 * iteration order (the earliest inserted). The clock is a parameter.
 */
module TtlCache {
  import opened Wrappers

  datatype Stamped<V> = Stamped(data: V, timestamp: int)

  /** The map's keys in iteration order, and its entries. */
  datatype CacheState<V> = CacheState(order: seq<string>, entries: map<string, Stamped<V>>)

  predicate Distinct(order: seq<string>) {
    forall i, j :: 0 <= i < j < |order| ==> order[i] != order[j]
  }

  /** `order` lists every key of the map exactly once. */
  ghost predicate WellFormed<V>(st: CacheState<V>) {
    Distinct(st.order) && (forall k :: k in st.entries <==> k in st.order)
  }

  /** `order` with `key` taken out. */
  function Remove(order: seq<string>, key: string): (r: seq<string>)
    ensures forall k :: k in r <==> k in order && k != key
    ensures Distinct(order) ==> Distinct(r)
    ensures Distinct(order) && key in order ==> |r| == |order| - 1
    ensures key !in order ==> r == order
  {
    if order == [] then []
    else if order[0] == key then Remove(order[1..], key)
    else
      var rest := Remove(order[1..], key);
      DistinctCons(order, rest);
      [order[0]] + rest
  }

  lemma {:induction false} DistinctCons(order: seq<string>, rest: seq<string>)
    requires order != [] && (forall k :: k in rest ==> k in order[1..])
    requires Distinct(order) ==> Distinct(rest)
    ensures Distinct(order) ==> Distinct([order[0]] + rest)
  {
    if Distinct(order) {
      var r := [order[0]] + rest;
      forall i, j | 0 <= i < j < |r| ensures r[i] != r[j] {
        if i == 0 {
          assert r[j] in order[1..];
          var m :| 0 <= m < |order[1..]| && order[1..][m] == r[j];
          assert order[m + 1] == r[j];
        } else {
          assert r[i] == rest[i - 1] && r[j] == rest[j - 1];
        }
      }
    }
  }

  /** `cache.delete(key)`; deleting an absent key changes nothing. */
  function Delete<V>(st: CacheState<V>, key: string): CacheState<V> {
    CacheState(Remove(st.order, key), st.entries - {key})
  }

  /**
   * `getCachedData(key)`: the stored response while `now - timestamp < ttl`,
   * with the cache unchanged; otherwise None, and the key is deleted.
   */
  function Lookup<V>(st: CacheState<V>, key: string, now: int, ttl: int): (Option<V>, CacheState<V>) {
    if key in st.entries && now - st.entries[key].timestamp < ttl then (Some(st.entries[key].data), st)
    else (None, Delete(st, key))
  }

  /** `cache.set(key, …)`: a new key goes to the end, an existing key keeps its place. */
  function Inserted<V>(st: CacheState<V>, key: string, data: V, now: int): CacheState<V> {
    CacheState(if key in st.order then st.order else st.order + [key], st.entries[key := Stamped(data, now)])
  }

  /** `setCachedData` with the size check that the capacity intends: the oldest key is always evicted on overflow. */
  function Store<V>(st: CacheState<V>, key: string, data: V, now: int, capacity: nat): CacheState<V> {
    var grown := Inserted(st, key, data, now);
    if |grown.order| > capacity then Delete(grown, grown.order[0]) else grown
  }

  /**
   * `setCachedData` as written: the oldest key is only deleted when it is
   * truthy, so an oldest key `""` is never evicted.
   */
  function StoreAsWritten<V>(st: CacheState<V>, key: string, data: V, now: int, capacity: nat): CacheState<V> {
    var grown := Inserted(st, key, data, now);
    if |grown.order| > capacity && grown.order[0] != "" then Delete(grown, grown.order[0]) else grown
  }

  /** A cache that is well formed and within its capacity. */
  ghost predicate Bounded<V>(st: CacheState<V>, capacity: nat) {
    WellFormed(st) && |st.order| <= capacity
  }

  lemma {:induction false} InsertedWellFormed<V>(st: CacheState<V>, key: string, data: V, now: int)
    requires WellFormed(st)
    ensures WellFormed(Inserted(st, key, data, now))
    ensures |Inserted(st, key, data, now).order| == |st.order| + (if key in st.order then 0 else 1)
  {
    var g := Inserted(st, key, data, now);
    if key !in st.order {
      forall i, j | 0 <= i < j < |g.order| ensures g.order[i] != g.order[j] {
        if j == |st.order| {
          assert g.order[i] == st.order[i];
        }
      }
    }
  }

  /**
   * Lookup: a fresh entry is returned and the cache is left alone; a stale
   * or missing one yields None and deletes only that key; either way the
   * cache stays within its capacity.
   */
  lemma {:induction false} LookupSpec<V>(st: CacheState<V>, key: string, now: int, ttl: int, capacity: nat)
    requires Bounded(st, capacity)
    ensures var (r, st') := Lookup(st, key, now, ttl);
      Bounded(st', capacity) &&
      (r.Some? <==> key in st.entries && now - st.entries[key].timestamp < ttl) &&
      (r.Some? ==> r.value == st.entries[key].data && st' == st) &&
      (r.None? ==> key !in st'.entries && forall k :: k != key ==> (k in st'.entries <==> k in st.entries)) &&
      (forall k :: k in st'.entries ==> k in st.entries && st'.entries[k] == st.entries[k])
  {
  }

  /**
   * Store: the key maps to the new stamped data, the cache stays within its
   * capacity, no entry other than `key` changes value, and an entry is lost
   * only on overflow, and then it is the earliest inserted one.
   */
  lemma {:induction false} StoreSpec<V>(st: CacheState<V>, key: string, data: V, now: int, capacity: nat)
    requires Bounded(st, capacity) && capacity >= 1
    ensures var st' := Store(st, key, data, now, capacity);
      Bounded(st', capacity) &&
      key in st'.entries && st'.entries[key] == Stamped(data, now) &&
      (forall k :: k in st'.entries && k != key ==> k in st.entries && st'.entries[k] == st.entries[k]) &&
      (forall k :: k in st.entries && k !in st'.entries ==>
         key !in st.entries && |st.order| == capacity && k == st.order[0])
  {
    InsertedWellFormed(st, key, data, now);
    var g := Inserted(st, key, data, now);
    if |g.order| > capacity {
      assert st.order != [] && g.order[0] == st.order[0];
      assert g.order[0] != key;
    }
  }

  /** The stored entry is what a later lookup within the time-to-live returns. */
  lemma {:induction false} StoreThenLookup<V>(st: CacheState<V>, key: string, data: V, now: int, later: int, ttl: int, capacity: nat)
    requires Bounded(st, capacity) && capacity >= 1
    requires later - now < ttl
    ensures Lookup(Store(st, key, data, now, capacity), key, later, ttl).0 == Some(data)
  {
    StoreSpec(st, key, data, now, capacity);
  }

  /** A stored entry expires: a lookup once the time-to-live has passed finds nothing and removes the key. */
  lemma {:induction false} StoreThenExpire<V>(st: CacheState<V>, key: string, data: V, now: int, later: int, ttl: int, capacity: nat)
    requires Bounded(st, capacity) && capacity >= 1
    requires later - now >= ttl
    ensures var (r, st') := Lookup(Store(st, key, data, now, capacity), key, later, ttl);
      r.None? && key !in st'.entries
  {
    StoreSpec(st, key, data, now, capacity);
  }

  /**
   * The defect of the size check as written: once `""` is the oldest key of
   * a cache at or over its capacity, storing a new key appends it and
   * evicts nothing, so the result again has `""` first and is over its
   * capacity, and each later store of a new key grows it once more.
   */
  lemma {:induction false} EmptyKeyBlocksEviction<V>(st: CacheState<V>, key: string, data: V, now: int, capacity: nat)
    requires WellFormed(st) && |st.order| >= capacity
    requires st.order != [] && st.order[0] == ""
    requires key !in st.order
    ensures var st' := StoreAsWritten(st, key, data, now, capacity);
      WellFormed(st') && st'.order == st.order + [key] && |st'.order| == |st.order| + 1 &&
      |st'.order| > capacity && st'.order[0] == ""
  {
    InsertedWellFormed(st, key, data, now);
  }

  /** A concrete instance: a full one-entry cache holding `""` takes a second entry. */
  lemma {:induction false} EmptyKeyOverflowExample()
    ensures |StoreAsWritten(CacheState([""], map["" := Stamped(0, 0)]), "page=2", 1, 0, 1).order| == 2
  {
  }

  /** Where no key is `""` the size check as written is the intended one. */
  lemma {:induction false} StoreAsWrittenAgrees<V>(st: CacheState<V>, key: string, data: V, now: int, capacity: nat)
    requires WellFormed(st) && "" !in st.order && key != ""
    ensures StoreAsWritten(st, key, data, now, capacity) == Store(st, key, data, now, capacity)
  {
    var g := Inserted(st, key, data, now);
    if g.order != [] {
      assert g.order[0] in g.order;
    }
  }

  /** The module-level `cache` map of a route, with its time-to-live and capacity. */
  class Cache<V> {
    var order: seq<string>
    var entries: map<string, Stamped<V>>
    const ttl: int
    const capacity: nat

    function State(): CacheState<V>
      reads this
    {
      CacheState(order, entries)
    }

    ghost predicate Valid()
      reads this
    {
      Bounded(State(), capacity) && capacity >= 1
    }

    constructor (ttl: int, capacity: nat)
      requires capacity >= 1
      ensures Valid()
      ensures order == [] && entries == map[]
      ensures this.ttl == ttl && this.capacity == capacity
    {
      this.order := [];
      this.entries := map[];
      this.ttl := ttl;
      this.capacity := capacity;
    }

    /** `getCachedData(key)` at time `now`. */
    method Get(key: string, now: int) returns (r: Option<V>)
      requires Valid()
      modifies this
      ensures Valid()
      ensures (r, State()) == Lookup(old(State()), key, now, ttl)
    {
      LookupSpec(State(), key, now, ttl, capacity);
      if key in entries && now - entries[key].timestamp < ttl {
        r := Some(entries[key].data);
      } else {
        r := None;
        order := Remove(order, key);
        entries := entries - {key};
      }
    }

    /** `setCachedData(key, data)` at time `now`, with the oldest key always evicted on overflow. */
    method Set(key: string, data: V, now: int)
      requires Valid()
      modifies this
      ensures Valid()
      ensures State() == Store(old(State()), key, data, now, capacity)
    {
      StoreSpec(State(), key, data, now, capacity);
      if key !in order {
        order := order + [key];
      }
      entries := entries[key := Stamped(data, now)];
      if |order| > capacity {
        var oldest := order[0];
        order := Remove(order, oldest);
        entries := entries - {oldest};
      }
    }
  }
}

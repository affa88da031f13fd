/**
  The time-boxed client-side cache: a string-keyed browser storage holding
  JSON records `{data, time}`, a fixed five-minute lifetime, eviction only when
  an expired entry is read, and every storage or JSON failure swallowed.

  Storage is a map from key to the record as `JSON.parse` would see it; the
  clock (`Date.now()`) and whether the storage can be used at all are passed in.
 */
module Cache {
  import opened Js

  /** Lifetime of an entry in milliseconds: five minutes. */
  const CacheDuration: int := 5 * 60 * 1000

  /** The `time` field of a parsed record after the number conversion that
      `Date.now() - time` applies to it: an integral number of milliseconds,
      or NaN (a missing field, an object, a non-numeric string). */
  datatype Stamp = Millis(ms: int) | NotANumber

  /** What sits under one key of the storage, as `getCache` parses it. */
  datatype Raw<V> =
    | Entry(data: V, time: Stamp)   // a record `{data, time}`
    | Blank                         // the empty string, which `!cached` takes for a missing item
    | Malformed                     // text on which `JSON.parse` or the destructuring throws

  type Storage<V> = map<string, Raw<V>>

  /** Result of `getCache`: the value returned (null on every miss) and the
      storage afterwards. */
  datatype Lookup<V> = Lookup(value: Option<V>, store: Storage<V>)

  /** `now - time < CACHE_DURATION` holds: the clock is less than five
      minutes past the stamp, or behind it. With a NaN age the comparison is
      false. */
  predicate Young(time: Stamp, now: int) {
    time.Millis? && now - time.ms < CacheDuration
  }

  /** `key` holds a record young enough to be returned. */
  predicate Fresh<V>(store: Storage<V>, key: string, now: int) {
    key in store && store[key].Entry? && Young(store[key].time, now)
  }

  /** `key` holds a parsed record that is no longer young. */
  predicate Stale<V>(store: Storage<V>, key: string, now: int) {
    key in store && store[key].Entry? && !Young(store[key].time, now)
  }

  /** `setCache(key, data)` at clock `now`. `writable` is false when
      `JSON.stringify` or `localStorage.setItem` throws; the exception is caught
      and logged, so the caller sees no difference. */
  function SetCache<V>(store: Storage<V>, key: string, data: V, now: int, writable: bool)
    : (store': Storage<V>)
    ensures writable ==> key in store' && store'[key] == Entry(data, Millis(now))
    ensures !writable ==> store' == store
    ensures store'.Keys == store.Keys + (if writable then {key} else {})
    ensures forall k :: k in store && k != key ==> store'[k] == store[k]
  {
    if writable then store[key := Entry(data, Millis(now))] else store
  }

  /** `getCache(key)` at clock `now`. `readable` is false when touching
      `localStorage` throws; that exception is caught and null is returned. */
  function GetCache<V(==)>(store: Storage<V>, key: string, now: int, readable: bool)
    : (r: Lookup<V>)
    ensures r.value.Some? <==> readable && Fresh(store, key, now)
    ensures r.value.Some? ==> r.value.value == store[key].data
    ensures r.store != store <==> readable && Stale(store, key, now)
    ensures r.store != store ==> r.store == store - {key}
  {
    if !readable then Lookup(None, store)
    else if key !in store || store[key].Blank? then Lookup(None, store)
    else match store[key]
      case Malformed => Lookup(None, store)
      case Entry(data, time) =>
        if Young(time, now) then Lookup(Some(data), store)
        else Lookup(None, store - {key})
  }

  /** A value written at `t` is read back unchanged at any `t'` with
      `0 <= t' - t < 300000`, and the read leaves storage alone. */
  lemma ReadBackWithinLifetime<V>(store: Storage<V>, key: string, data: V, t: int, t': int)
    requires 0 <= t' - t < CacheDuration
    ensures var s := SetCache(store, key, data, t, true);
      GetCache(s, key, t', true) == Lookup(Some(data), s)
  {
  }

  /** Once the age reaches the lifetime the value is never returned, however
      old: the boundary is strict. */
  lemma ExpiredNeverReturned<V>(store: Storage<V>, key: string, data: V, t: int, t': int)
    requires t' - t >= CacheDuration
    ensures GetCache(SetCache(store, key, data, t, true), key, t', true).value == None
  {
  }

  /** A key with no stored item reads as null and nothing changes. A stored
      empty string takes the same path. */
  lemma MissLeavesStorage<V>(store: Storage<V>, key: string, now: int)
    requires key !in store || store[key].Blank?
    ensures GetCache(store, key, now, true) == Lookup(None, store)
  {
  }

  /** Reading an expired entry removes exactly that key, keeps every other
      entry, and a later read of the key, at any clock, takes the not-found
      path. */
  lemma ExpiredReadEvictsOnlyKey<V>(store: Storage<V>, key: string, now: int, later: int)
    requires Stale(store, key, now)
    ensures var r := GetCache(store, key, now, true);
      && r.value == None
      && key !in r.store
      && r.store.Keys == store.Keys - {key}
      && (forall k :: k in r.store ==> r.store[k] == store[k])
      && GetCache(r.store, key, later, true) == Lookup(None, r.store)
  {
  }

  /** A hit does not modify storage: only an expired read evicts. */
  lemma HitKeepsStorage<V>(store: Storage<V>, key: string, now: int)
    requires Fresh(store, key, now)
    ensures GetCache(store, key, now, true) == Lookup(Some(store[key].data), store)
  {
  }

  /** Writing twice under a key keeps only the second record; writing under
      one key never disturbs what a read of another key returns. */
  lemma WriteOverwritesOnlyKey<V>(store: Storage<V>, key: string, other: string,
                                  a: V, b: V, t1: int, t2: int, now: int)
    requires other != key
    ensures SetCache(SetCache(store, key, a, t1, true), key, b, t2, true)
         == SetCache(store, key, b, t2, true)
    ensures GetCache(SetCache(store, key, a, t1, true), other, now, true).value
         == GetCache(store, other, now, true).value
  {
  }

  /** A failed write is invisible: storage is unchanged, and a read afterwards
      sees whatever was there before. */
  lemma FailedWriteIsSwallowed<V>(store: Storage<V>, key: string, data: V, t: int, now: int)
    ensures SetCache(store, key, data, t, false) == store
    ensures GetCache(SetCache(store, key, data, t, false), key, now, true)
         == GetCache(store, key, now, true)
  {
  }

  /** A failed storage access reads as a miss and changes nothing, whatever
      is stored. */
  lemma UnreadableIsMiss<V>(store: Storage<V>, key: string, now: int)
    ensures GetCache(store, key, now, false) == Lookup(None, store)
  {
  }

  /** A malformed item reads as null and stays in storage: the exception from
      `JSON.parse` skips the removal. */
  lemma MalformedStays<V>(store: Storage<V>, key: string, now: int)
    requires key in store && store[key].Malformed?
    ensures GetCache(store, key, now, true) == Lookup(None, store)
    ensures key in GetCache(store, key, now, true).store
  {
  }

  /** A parsed record whose `time` converts to NaN has a NaN age: it is never
      returned and the read removes it like an expired entry. */
  lemma NaNAgeIsEvicted<V>(store: Storage<V>, key: string, data: V, now: int)
    requires key in store && store[key] == Entry(data, NotANumber)
    ensures GetCache(store, key, now, true) == Lookup(None, store - {key})
  {
  }

  /** A clock that went backwards gives a negative age, which is below the
      lifetime: the value is still returned. */
  lemma NegativeAgeIsHit<V>(store: Storage<V>, key: string, data: V, t: int, now: int)
    requires now < t
    ensures GetCache(SetCache(store, key, data, t, true), key, now, true).value == Some(data)
  {
  }

  /** While the clock does not go backwards, an entry that has stopped being
      young never becomes young again. */
  lemma ExpiryIsPermanent(time: Stamp, now: int, later: int)
    requires !Young(time, now) && now <= later
    ensures !Young(time, later)
  {
  }

  /** The removal on an expired read loses nothing a later read could have
      returned, as long as the clock does not go backwards: reading the key
      later gives the same value whether or not the entry was evicted. */
  lemma EvictionLosesNothing<V>(store: Storage<V>, key: string, now: int, later: int)
    requires Stale(store, key, now) && now <= later
    ensures GetCache(store, key, later, true).value
         == GetCache(store - {key}, key, later, true).value
  {
  }

  /** With a clock that goes backwards the eviction does lose data: an entry
      stamped 0 is missed and removed at 300000 ms, yet the same storage read
      at 10 ms would have returned it. */
  lemma BackwardClockEvictionLoses<V>(key: string, data: V)
    ensures var store := map[key := Entry(data, Millis(0))];
      && GetCache(store, key, CacheDuration, true) == Lookup(None, map[])
      && GetCache(store, key, 10, true).value == Some(data)
  {
    assert map[key := Entry(data, Millis(0))] - {key} == map[];
  }

  /** Write at 0, read at 30 s (a hit), read at 370 s (null, entry removed),
      read again (null). */
  lemma ScenarioFiveMinutes<V>(store: Storage<V>, key: string, data: V)
    ensures var s0 := SetCache(store, key, data, 0, true);
      var r1 := GetCache(s0, key, 30000, true);
      var r2 := GetCache(r1.store, key, 370000, true);
      var r3 := GetCache(r2.store, key, 370000, true);
      && r1.value == Some(data) && r1.store == s0
      && r2.value == None && key !in r2.store
      && r3.value == None && r3.store == r2.store
  {
  }
}

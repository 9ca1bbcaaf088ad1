/**
 * The in-memory TTL cache: a key-to-entry map whose entries carry an expiry
 * time. Expired entries are dropped lazily when `Get` or `Has` looks at them,
 * or all at once by `Cleanup`. The clock reading `now` (milliseconds) is a
 * parameter of every operation that reads the clock.
 */
module Caching {
  import opened Wrappers
  import opened Seqs

  datatype Entry<V> = Entry(value: V, expiry: int)

  datatype CacheStats = CacheStats(total: nat, active: nat, expired: nat)

  /** The time-to-live, in seconds, of an entry stored without one. */
  const DefaultTtl: int := 3600

  /** When an entry stored at `now` with a TTL of `ttl` seconds expires. */
  function ExpiryAt(now: int, ttl: int): int
  {
    now + ttl * 1000
  }

  /** An entry expires once the clock is strictly past its expiry time. */
  predicate Live<V>(e: Entry<V>, now: int)
  {
    !(now > e.expiry)
  }

  /** The answer `get` gives for `key` at time `now`. */
  function Lookup<K, V>(m: map<K, Entry<V>>, key: K, now: int): Option<V>
  {
    if key in m && Live(m[key], now) then Some(m[key].value) else None
  }

  /** The entries still live at `now`. */
  function LiveEntries<K, V>(m: map<K, Entry<V>>, now: int): map<K, Entry<V>>
  {
    map k | k in m && Live(m[k], now) :: m[k]
  }

  /** The keys of `ks` whose entries are still live at `now`, in order. */
  function LiveKeys<K, V>(ks: seq<K>, m: map<K, Entry<V>>, now: int): seq<K>
  {
    Filter(ks, k => k in m && Live(m[k], now))
  }

  /** What `Cleanup` has left of `m` once it has looked at the keys of `seen`. */
  ghost function LiveAmong<K, V>(m: map<K, Entry<V>>, seen: seq<K>, now: int): map<K, Entry<V>>
  {
    map k | k in m && (k in seen ==> Live(m[k], now)) :: m[k]
  }

  /** Looking at one more key drops it exactly when it has expired. */
  lemma LiveAmongStep<K, V>(m: map<K, Entry<V>>, ks: seq<K>, i: int, now: int)
    requires 0 <= i < |ks| && ks[i] in m
    ensures LiveAmong(m, ks[..i + 1], now)
         == if Live(m[ks[i]], now) then LiveAmong(m, ks[..i], now) else LiveAmong(m, ks[..i], now) - {ks[i]}
  {
    assert ks[..i + 1] == ks[..i] + [ks[i]];
  }

  /** Looking at one more key keeps it in the live key list exactly when it has not expired. */
  lemma LiveKeysStep<K, V>(m: map<K, Entry<V>>, ks: seq<K>, i: int, now: int)
    requires 0 <= i < |ks| && ks[i] in m
    ensures LiveKeys(ks[..i + 1], m, now)
         == LiveKeys(ks[..i], m, now) + if Live(m[ks[i]], now) then [ks[i]] else []
  {
    assert ks[..i + 1] == ks[..i] + [ks[i]];
    FilterConcat(ks[..i], [ks[i]], k => k in m && Live(m[k], now));
  }

  /** Once every key is looked at, what is left are the live entries, listed once each by the live keys. */
  lemma LiveAmongAll<K, V>(m: map<K, Entry<V>>, ks: seq<K>, now: int)
    requires Distinct(ks) && forall k :: k in m <==> k in ks
    ensures LiveAmong(m, ks, now) == LiveEntries(m, now)
    ensures Distinct(LiveKeys(ks, m, now))
    ensures forall k :: k in LiveKeys(ks, m, now) <==> k in LiveEntries(m, now)
  {
    FilterDistinct(ks, k => k in m && Live(m[k], now));
    forall k ensures k in LiveKeys(ks, m, now) <==> k in LiveEntries(m, now) {
      FilterMembership(ks, k' => k' in m && Live(m[k'], now), k);
    }
  }

  /** `ks` with `key` taken out. */
  function Without<K(==)>(ks: seq<K>, key: K): seq<K>
  {
    Filter(ks, k => k != key)
  }

  /** Storing `key` makes `get` answer its value up to and including the expiry instant, and no longer. */
  lemma LookupAfterStore<K, V>(m: map<K, Entry<V>>, key: K, value: V, at: int, ttl: int, now: int)
    ensures Lookup(m[key := Entry(value, ExpiryAt(at, ttl))], key, now)
         == if now <= at + ttl * 1000 then Some(value) else None
  {
  }

  /** Storing one key leaves what `get` answers for every other key unchanged. */
  lemma LookupOtherKey<K, V>(m: map<K, Entry<V>>, key: K, other: K, e: Entry<V>, now: int)
    requires other != key
    ensures Lookup(m[key := e], other, now) == Lookup(m, other, now)
  {
  }

  class Cache<K(==, !new), V> {
    /** The keys in insertion order, as a JavaScript `Map` keeps them. */
    var order: seq<K>
    var entries: map<K, Entry<V>>

    ghost predicate Valid()
      reads this
    {
      Distinct(order) && forall k :: k in entries <==> k in order
    }

    lemma SizeAgrees()
      requires Valid()
      ensures |entries| == |order|
    {
      DistinctCardinality(order);
      assert entries.Keys == set k | k in order;
    }

    lemma WithoutKeepsValid(key: K)
      requires Valid()
      ensures Distinct(Without(order, key))
      ensures forall k :: k in entries - {key} <==> k in Without(order, key)
    {
      FilterDistinct(order, k => k != key);
      forall k ensures k in Without(order, key) <==> k in order && k != key {
        FilterMembership(order, k' => k' != key, k);
      }
    }

    constructor ()
      ensures Valid() && entries == map[] && order == []
    {
      order := [];
      entries := map[];
    }

    /** `set(key, value, ttl = 3600)`: stores or overwrites the entry for `key`. */
    method Set(key: K, value: V, now: int, ttl: int := DefaultTtl)
      requires Valid()
      modifies this
      ensures Valid()
      ensures entries == old(entries)[key := Entry(value, ExpiryAt(now, ttl))]
      ensures order == if key in old(entries) then old(order) else old(order) + [key]
    {
      if key !in entries {
        order := order + [key];
      }
      entries := entries[key := Entry(value, ExpiryAt(now, ttl))];
    }

    /** `get(key)`: the live value, if any; an expired entry for `key` is removed. */
    method Get(key: K, now: int) returns (r: Option<V>)
      requires Valid()
      modifies this
      ensures Valid()
      ensures r == Lookup(old(entries), key, now)
      ensures if key in old(entries) && !Live(old(entries)[key], now)
              then entries == old(entries) - {key} && order == Without(old(order), key)
              else entries == old(entries) && order == old(order)
    {
      if key !in entries {
        return None;
      }
      var item := entries[key];
      if now > item.expiry {
        WithoutKeepsValid(key);
        entries := entries - {key};
        order := Without(order, key);
        return None;
      }
      return Some(item.value);
    }

    /** `delete(key)`: whether there was an entry for `key`, which is now gone. */
    method Delete(key: K) returns (removed: bool)
      requires Valid()
      modifies this
      ensures Valid()
      ensures removed == (key in old(entries))
      ensures entries == old(entries) - {key} && order == Without(old(order), key)
    {
      removed := key in entries;
      WithoutKeepsValid(key);
      entries := entries - {key};
      order := Without(order, key);
    }

    /** `clear()`. */
    method Clear()
      requires Valid()
      modifies this
      ensures Valid() && entries == map[] && order == []
    {
      entries := map[];
      order := [];
    }

    /** `has(key)`: whether `key` has a live entry; an expired one is removed, as by `Get`. */
    method Has(key: K, now: int) returns (b: bool)
      requires Valid()
      modifies this
      ensures Valid()
      ensures b == Lookup(old(entries), key, now).Some?
      ensures if key in old(entries) && !Live(old(entries)[key], now)
              then entries == old(entries) - {key} && order == Without(old(order), key)
              else entries == old(entries) && order == old(order)
    {
      if key !in entries {
        return false;
      }
      var item := entries[key];
      if now > item.expiry {
        WithoutKeepsValid(key);
        entries := entries - {key};
        order := Without(order, key);
        return false;
      }
      return true;
    }

    /** `size()`: the number of stored entries, expired or not. */
    method Size() returns (n: nat)
      requires Valid()
      ensures n == |entries| && n == |order|
    {
      SizeAgrees();
      n := |order|;
    }

    /** `keys()`: every stored key once, in insertion order. */
    method Keys() returns (ks: seq<K>)
      requires Valid()
      ensures ks == order
      ensures Distinct(ks)
      ensures forall k :: k in ks <==> k in entries
    {
      ks := order;
    }

    /** `cleanup()`: removes exactly the entries expired at `now`. */
    method Cleanup(now: int)
      requires Valid()
      modifies this
      ensures Valid()
      ensures entries == LiveEntries(old(entries), now)
      ensures order == LiveKeys(old(order), old(entries), now)
    {
      ghost var m := entries;
      var ks := order;
      var kept := [];
      var i := 0;
      while i < |ks|
        invariant 0 <= i <= |ks|
        invariant order == ks && Distinct(ks)
        invariant kept == LiveKeys(ks[..i], m, now)
        invariant entries == LiveAmong(m, ks[..i], now)
      {
        var key := ks[i];
        assert key !in ks[..i];
        LiveAmongStep(m, ks, i, now);
        LiveKeysStep(m, ks, i, now);
        if now > entries[key].expiry {
          entries := entries - {key};
        } else {
          kept := kept + [key];
        }
        i := i + 1;
      }
      assert ks[..i] == ks;
      LiveAmongAll(m, ks, now);
      order := kept;
    }

    /** `getStats()`: counts of all, live and expired entries; nothing changes. */
    method GetStats(now: int) returns (s: CacheStats)
      requires Valid()
      ensures s.total == |entries|
      ensures s.active + s.expired == s.total
      ensures s.active == |LiveEntries(entries, now)|
    {
      ghost var m := entries;
      var active, expired := 0, 0;
      var i := 0;
      while i < |order|
        invariant 0 <= i <= |order|
        invariant active == |LiveKeys(order[..i], m, now)|
        invariant active + expired == i
      {
        assert order[..i + 1] == order[..i] + [order[i]];
        FilterConcat(order[..i], [order[i]], k => k in m && Live(m[k], now));
        var item := entries[order[i]];
        if now > item.expiry {
          expired := expired + 1;
        } else {
          active := active + 1;
        }
        i := i + 1;
      }
      assert order[..i] == order;
      SizeAgrees();
      LiveKeysCount(now);
      s := CacheStats(|entries|, active, expired);
    }

    lemma LiveKeysCount(now: int)
      requires Valid()
      ensures |LiveKeys(order, entries, now)| == |LiveEntries(entries, now)|
    {
      var m := entries;
      var live := LiveKeys(order, m, now);
      FilterDistinct(order, k => k in m && Live(m[k], now));
      DistinctCardinality(live);
      forall k ensures k in live <==> k in LiveEntries(m, now) {
        FilterMembership(order, k' => k' in m && Live(m[k'], now), k);
      }
      assert LiveEntries(entries, now).Keys == set k | k in live;
    }
  }

  /**
   * A value stored with a TTL of one second is returned up to and including
   * the instant one second later, and is gone a millisecond after that.
   */
  method OneSecondEntry<V>(key: string, value: V, t: int) returns (atOnce: Option<V>, atExpiry: Option<V>, after: Option<V>, present: bool)
    ensures atOnce == Some(value) && atExpiry == Some(value)
    ensures after == None && !present
  {
    var c := new Cache<string, V>();
    c.Set(key, value, t, 1);
    atOnce := c.Get(key, t);
    atExpiry := c.Get(key, t + 1000);
    after := c.Get(key, t + 1001);
    present := c.Has(key, t + 1001);
  }
}

// The two in-memory caches: the TTL-only `SimpleCache` (utils/cache.py, with an older
// copy of the same class in the root server.py) and the TTL plus LRU `LRUCache`
// (utils/advanced_cache.py). The clock is the parameter `now`; stored timestamps and
// the current time are exact reals. Compression is an identity round trip.

module Caches {
  import opened Base

  datatype Entry<V> = Entry(value: V, timestamp: real)

  /** `_is_expired`: strictly older than the TTL, so an entry whose age equals the
      TTL is still served. */
  predicate Expired<V>(e: Entry<V>, ttl: int, now: real)
  {
    now - e.timestamp > ttl as real
  }

  /** The entries `clear_expired` keeps. */
  function Live<V>(m: map<string, Entry<V>>, ttl: int, now: real): map<string, Entry<V>>
  {
    map k | k in m && !Expired(m[k], ttl, now) :: m[k]
  }

  /** What `get` returns. */
  function Lookup<V>(m: map<string, Entry<V>>, key: string, ttl: int, now: real): Option<V>
  {
    if key in m && !Expired(m[key], ttl, now) then Some(m[key].value) else None
  }

  /** The entries after `get`: an expired entry for the key is deleted. */
  function AfterGet<V>(m: map<string, Entry<V>>, key: string, ttl: int, now: real): map<string, Entry<V>>
  {
    if key in m && Expired(m[key], ttl, now) then m - {key} else m
  }

  /** A value stored at `stored` is found again at any time no later than `ttl`
      seconds afterwards, including exactly then; afterwards it is gone. */
  lemma LookupAfterSet<V>(m: map<string, Entry<V>>, key: string, v: V, stored: real, ttl: int, now: real)
    requires stored <= now
    ensures Lookup(m[key := Entry(v, stored)], key, ttl, now)
      == if now <= stored + ttl as real then Some(v) else None
  {
  }

  /** `set` leaves every other key's lookup as it was. */
  lemma LookupOtherKey<V>(m: map<string, Entry<V>>, key: string, other: string, v: V, stored: real,
                          ttl: int, now: real)
    requires other != key
    ensures Lookup(m[key := Entry(v, stored)], other, ttl, now) == Lookup(m, other, ttl, now)
  {
  }

  /** `get` never touches an unexpired entry: what survives an expiry sweep is the same
      before and after it, and a later lookup of any key gives the same answer. */
  lemma GetKeepsLive<V>(m: map<string, Entry<V>>, key: string, ttl: int, now: real, other: string)
    ensures Live(AfterGet(m, key, ttl, now), ttl, now) == Live(m, ttl, now)
    ensures Lookup(AfterGet(m, key, ttl, now), other, ttl, now) == Lookup(m, other, ttl, now)
  {
    var a := AfterGet(m, key, ttl, now);
    assert forall k :: k in Live(a, ttl, now) <==> k in Live(m, ttl, now);
  }

  /** An expiry sweep keeps exactly the unexpired entries, unchanged; sweeping twice is
      the same as once, and lookups do not see the difference. */
  lemma LiveExact<V>(m: map<string, Entry<V>>, ttl: int, now: real, key: string)
    ensures key in Live(m, ttl, now) <==> key in m && !Expired(m[key], ttl, now)
    ensures key in Live(m, ttl, now) ==> Live(m, ttl, now)[key] == m[key]
    ensures Live(Live(m, ttl, now), ttl, now) == Live(m, ttl, now)
    ensures Lookup(Live(m, ttl, now), key, ttl, now) == Lookup(m, key, ttl, now)
  {
  }

  /** Once everything has expired, a sweep empties the cache. */
  lemma AllExpiredClears<V>(m: map<string, Entry<V>>, ttl: int, now: real)
    requires forall k :: k in m ==> m[k].timestamp + ttl as real < now
    ensures Live(m, ttl, now) == map[]
  {
    assert forall k :: k !in Live(m, ttl, now);
  }

  /** `SimpleCache`: a TTL-only dictionary. */
  class SimpleCache<V> {
    var entries: map<string, Entry<V>>
    const ttl: int

    constructor (ttlSeconds: int)
      ensures entries == map[] && ttl == ttlSeconds
    {
      entries := map[];
      ttl := ttlSeconds;
    }

    method Get(key: string, now: real) returns (r: Option<V>)
      modifies this
      ensures r == Lookup(old(entries), key, ttl, now)
      ensures entries == AfterGet(old(entries), key, ttl, now)
    {
      if key in entries {
        var entry := entries[key];
        if !Expired(entry, ttl, now) {
          return Some(entry.value);
        } else {
          entries := entries - {key};
        }
      }
      return None;
    }

    method Set(key: string, value: V, now: real)
      modifies this
      ensures entries == old(entries)[key := Entry(value, now)]
    {
      entries := entries[key := Entry(value, now)];
    }

    method ClearExpired(now: real)
      modifies this
      ensures entries == Live(old(entries), ttl, now)
    {
      var expiredKeys := set k | k in entries && Expired(entries[k], ttl, now);
      ghost var start := entries;
      var pending := expiredKeys;
      while pending != {}
        invariant pending <= expiredKeys
        invariant entries == start - (expiredKeys - pending)
        decreases |pending|
      {
        var key :| key in pending;
        entries := entries - {key};
        pending := pending - {key};
      }
      assert entries == start - expiredKeys;
    }
  }

  // ---- Key order of the LRU cache (an OrderedDict) ----

  predicate Distinct(s: seq<string>)
  {
    forall i, j :: 0 <= i < j < |s| ==> s[i] != s[j]
  }

  function Elements(s: seq<string>): set<string>
  {
    set x | x in s
  }

  lemma ElementsAppend(s: seq<string>, x: string)
    ensures Elements(s + [x]) == Elements(s) + {x}
  {
  }

  lemma MinusMinus<V>(m: map<string, Entry<V>>, a: set<string>, x: string)
    ensures (m - a) - {x} == m - (a + {x})
  {
  }

  /** The keys of `s` not in `d`, in their order. */
  function Drop(s: seq<string>, d: set<string>): seq<string>
    decreases |s|
  {
    if s == [] then [] else Drop(s[..|s| - 1], d) + (if s[|s| - 1] in d then [] else [s[|s| - 1]])
  }

  lemma {:induction false} DropMembers(s: seq<string>, d: set<string>, x: string)
    ensures x in Drop(s, d) <==> x in s && x !in d
    decreases |s|
  {
    if s != [] {
      DropMembers(s[..|s| - 1], d, x);
      assert s == s[..|s| - 1] + [s[|s| - 1]];
    }
  }

  lemma {:induction false} DropDistinct(s: seq<string>, d: set<string>)
    requires Distinct(s)
    ensures Distinct(Drop(s, d))
    decreases |s|
  {
    if s != [] {
      var p := s[..|s| - 1];
      DropDistinct(p, d);
      DropMembers(p, d, s[|s| - 1]);
    }
  }

  lemma {:induction false} DropDrop(s: seq<string>, d: set<string>, e: set<string>)
    ensures Drop(Drop(s, d), e) == Drop(s, d + e)
    decreases |s|
  {
    if s != [] {
      var p := s[..|s| - 1];
      DropDrop(p, d, e);
      var x := s[|s| - 1];
      assert Drop(s, d + e) == Drop(p, d + e) + (if x in d + e then [] else [x]);
      if x !in d {
        assert Drop(s, d) == Drop(p, d) + [x];
        DropAppend(Drop(p, d), x, e);
      } else {
        assert Drop(s, d) == Drop(p, d);
      }
    }
  }

  lemma DropAppend(q: seq<string>, x: string, e: set<string>)
    ensures Drop(q + [x], e) == Drop(q, e) + (if x in e then [] else [x])
  {
    assert (q + [x])[..|q|] == q;
  }

  lemma {:induction false} DropNothing(s: seq<string>)
    ensures Drop(s, {}) == s
    decreases |s|
  {
    if s != [] {
      DropNothing(s[..|s| - 1]);
      assert s == s[..|s| - 1] + [s[|s| - 1]];
    }
  }

  /** `move_to_end(key)`. */
  function MovedToEnd(s: seq<string>, key: string): seq<string>
  {
    Drop(s, {key}) + [key]
  }

  /** The keys left by `set`'s eviction loop: the oldest go first until fewer than
      max_size remain (for max_size <= 0 the loop empties the cache). */
  function Evicted(s: seq<string>, maxSize: int): (r: seq<string>)
    ensures |r| <= |s| && r == s[|s| - |r|..]
    ensures |s| < maxSize ==> r == s
    ensures 1 <= maxSize <= |s| ==> |r| == maxSize - 1
    ensures maxSize <= 0 ==> r == []
  {
    if |s| < maxSize then s else if maxSize <= 0 then [] else s[|s| - maxSize + 1..]
  }

  /** Assigning `cache[key]` keeps an existing key's place and appends a new one. */
  function Placed(s: seq<string>, key: string): seq<string>
  {
    if key in s then s else s + [key]
  }

  /** The key order after a `set(key, ...)` that did not raise: the eviction loop's
      survivors, with the key in place or appended. */
  function SetOrder(s: seq<string>, maxSize: int, key: string): seq<string>
  {
    Placed(Evicted(s, maxSize), key)
  }

  /** The entries after a `set(key, value)` at `now` that did not raise: the evicted
      keys' entries are gone and the key holds the new value. */
  function SetEntries<V>(s: seq<string>, m: map<string, Entry<V>>, maxSize: int, key: string, value: V,
                         now: real): map<string, Entry<V>>
  {
    (m - Elements(s[..|s| - |Evicted(s, maxSize)|]))[key := Entry(value, now)]
  }

  /** The key order after `get(key)`: a hit moves the key to the newest end and an
      expired entry's key is deleted. */
  function OrderAfterGet<V>(s: seq<string>, m: map<string, Entry<V>>, key: string, ttl: int,
                            now: real): seq<string>
  {
    if key !in m then s
    else if Expired(m[key], ttl, now) then Drop(s, {key})
    else MovedToEnd(s, key)
  }

  /** A `get` that misses changes nothing an expiry sweep keeps: sweeping afterwards
      leaves the order and entries that sweeping before would have left. */
  lemma FreshAfterMiss<V>(s: seq<string>, m: map<string, Entry<V>>, key: string, ttl: int, now: real)
    requires Lookup(m, key, ttl, now).None?
    ensures Fresh(OrderAfterGet(s, m, key, ttl, now), AfterGet(m, key, ttl, now), ttl, now)
      == Fresh(s, m, ttl, now)
    ensures Live(AfterGet(m, key, ttl, now), ttl, now) == Live(m, ttl, now)
  {
    GetKeepsLive(m, key, ttl, now, key);
    if key in m {
      FreshDropExpired(s, m, key, ttl, now);
    }
  }

  lemma {:induction false} FreshDropExpired<V>(s: seq<string>, m: map<string, Entry<V>>, key: string,
                                               ttl: int, now: real)
    requires key in m && Expired(m[key], ttl, now)
    ensures Fresh(Drop(s, {key}), m - {key}, ttl, now) == Fresh(s, m, ttl, now)
    decreases |s|
  {
    if s != [] {
      var p := s[..|s| - 1];
      var k := s[|s| - 1];
      FreshDropExpired(p, m, key, ttl, now);
      var d := Drop(s, {key});
      if k != key {
        assert d == Drop(p, {key}) + [k];
        assert d[..|d| - 1] == Drop(p, {key});
        assert (k in m - {key}) == (k in m);
      } else {
        assert d == Drop(p, {key});
      }
    }
  }

  /** The key order after `set(key, ...)` with max_size >= 1: at most max_size keys,
      the new key among them, no key repeated; an existing key that the eviction
      loop spared keeps its place. */
  lemma SetOrderFacts(s: seq<string>, key: string, maxSize: int)
    requires 1 <= maxSize && Distinct(s)
    ensures var r := Placed(Evicted(s, maxSize), key);
      |r| <= maxSize && key in r && Distinct(r)
      && (|s| < maxSize && key in s ==> r == s)
      && (key !in Evicted(s, maxSize) ==> r[|r| - 1] == key)
  {
    var e := Evicted(s, maxSize);
    assert forall i, j :: 0 <= i < j < |e| ==> e[i] == s[|s| - |e| + i] && e[j] == s[|s| - |e| + j];
  }

  /** The unexpired keys of `s`, in order. */
  function Fresh<V>(s: seq<string>, m: map<string, Entry<V>>, ttl: int, now: real): seq<string>
    decreases |s|
  {
    if s == [] then []
    else
      var k := s[|s| - 1];
      Fresh(s[..|s| - 1], m, ttl, now) + (if k in m && Expired(m[k], ttl, now) then [] else [k])
  }

  /** The expired keys of `s`, in order: `expired_keys` in `clear_expired`. */
  function Stale<V>(s: seq<string>, m: map<string, Entry<V>>, ttl: int, now: real): seq<string>
    decreases |s|
  {
    if s == [] then []
    else
      var k := s[|s| - 1];
      Stale(s[..|s| - 1], m, ttl, now) + (if k in m && Expired(m[k], ttl, now) then [k] else [])
  }

  lemma StaleStep<V>(s: seq<string>, i: nat, m: map<string, Entry<V>>, ttl: int, now: real)
    requires i < |s|
    ensures Stale(s[..i + 1], m, ttl, now) == Stale(s[..i], m, ttl, now)
      + (if s[i] in m && Expired(m[s[i]], ttl, now) then [s[i]] else [])
  {
    assert s[..i + 1][..i] == s[..i];
  }

  /** The sweep splits the keys in two: the number it reports removed plus the number
      left is the number there were, and dropping the stale keys leaves the fresh. */
  lemma {:induction false} StaleFresh<V>(s: seq<string>, m: map<string, Entry<V>>, ttl: int, now: real)
    ensures |Stale(s, m, ttl, now)| + |Fresh(s, m, ttl, now)| == |s|
    ensures forall x :: x in Stale(s, m, ttl, now) <==> x in s && x in m && Expired(m[x], ttl, now)
    ensures Drop(s, Elements(Stale(s, m, ttl, now))) == Fresh(s, m, ttl, now)
    decreases |s|
  {
    if s != [] {
      var p := s[..|s| - 1];
      var k := s[|s| - 1];
      StaleFresh(p, m, ttl, now);
      assert s == p + [k];
      var st := Stale(s, m, ttl, now);
      assert Elements(st) == Elements(Stale(p, m, ttl, now)) + (if k in m && Expired(m[k], ttl, now) then {k} else {});
      DropSame(p, Elements(Stale(p, m, ttl, now)), Elements(st));
    }
  }

  lemma {:induction false} DropSame(s: seq<string>, d: set<string>, e: set<string>)
    requires forall x :: x in s ==> (x in d <==> x in e)
    ensures Drop(s, d) == Drop(s, e)
    decreases |s|
  {
    if s != [] {
      DropSame(s[..|s| - 1], d, e);
    }
  }

  /** `LRUCache`: an OrderedDict of timestamped entries, least recently used first. */
  class LruCache<V> {
    var order: seq<string>
    var entries: map<string, Entry<V>>
    const maxSize: int
    const ttl: int
    const compress: bool

    /** The key order lists each stored key exactly once. */
    ghost predicate Valid()
      reads this
    {
      Distinct(order) && entries.Keys == Elements(order)
    }

    constructor (maxSizeArg: int, ttlSeconds: int, compressArg: bool)
      ensures Valid() && order == [] && entries == map[]
      ensures maxSize == maxSizeArg && ttl == ttlSeconds && compress == compressArg
    {
      order := [];
      entries := map[];
      maxSize := maxSizeArg;
      ttl := ttlSeconds;
      compress := compressArg;
    }

    /** A hit moves the key to the most recent end; an expired entry is deleted. */
    method Get(key: string, now: real) returns (r: Option<V>)
      requires Valid()
      modifies this
      ensures Valid()
      ensures r == Lookup(old(entries), key, ttl, now)
      ensures entries == AfterGet(old(entries), key, ttl, now)
      ensures order == OrderAfterGet(old(order), old(entries), key, ttl, now)
    {
      if key in entries {
        var entry := entries[key];
        DropDistinct(order, {key});
        forall x ensures x in Drop(order, {key}) <==> x in order && x != key {
          DropMembers(order, {key}, x);
        }
        if !Expired(entry, ttl, now) {
          order := MovedToEnd(order, key);
          return Some(entry.value);
        } else {
          Delete(key);
        }
      }
      return None;
    }

    /** `set`: evict from the oldest end while the cache is full, then store. With
        max_size <= 0 the loop empties the cache and `popitem` on the empty
        OrderedDict raises KeyError: `raised`, and nothing is stored. */
    method Set(key: string, value: V, now: real) returns (raised: bool)
      requires Valid()
      modifies this
      ensures Valid()
      ensures raised <==> maxSize <= 0
      ensures raised ==> order == [] && entries == map[]
      ensures !raised ==> order == SetOrder(old(order), maxSize, key)
      ensures !raised ==> entries == SetEntries(old(order), old(entries), maxSize, key, value, now)
    {
      ghost var s0 := order;
      ghost var m0 := entries;
      raised := EvictWhileFull();
      if !raised {
        assert order == Evicted(s0, maxSize);
        assert entries == m0 - Elements(s0[..|s0| - |Evicted(s0, maxSize)|]);
        Store(key, value, now);
      }
    }

    /** The eviction loop at the top of `set`. */
    method EvictWhileFull() returns (raised: bool)
      requires Valid()
      modifies this
      ensures Valid()
      ensures raised <==> maxSize <= 0
      ensures raised ==> order == [] && entries == map[]
      ensures !raised ==> order == Evicted(old(order), maxSize)
      ensures !raised ==> entries == old(entries) - Elements(old(order)[..|old(order)| - |order|])
    {
      ghost var start := order;
      ghost var startEntries := entries;
      ghost var gone := 0;
      while |order| >= maxSize
        invariant Valid()
        invariant 0 <= gone <= |start| && order == start[gone..]
        invariant 0 < gone ==> maxSize - 1 <= |order|
        invariant entries == startEntries - Elements(start[..gone])
        decreases |order|
      {
        if order == [] {
          assert entries.Keys == {};
          return true;
        }
        assert start[..gone + 1] == start[..gone] + [order[0]];
        ElementsAppend(start[..gone], order[0]);
        MinusMinus(startEntries, Elements(start[..gone]), order[0]);
        PopOldest();
        gone := gone + 1;
      }
      return false;
    }

    /** `cache[key] = {...}`: overwrite in place or append at the newest end. */
    method Store(key: string, value: V, now: real)
      requires Valid()
      modifies this
      ensures Valid()
      ensures order == Placed(old(order), key) && entries == old(entries)[key := Entry(value, now)]
    {
      entries := entries[key := Entry(value, now)];
      if key !in order {
        order := order + [key];
        ElementsAppend(old(order), key);
      }
    }

    /** `popitem(last=False)` on a non-empty cache. */
    method PopOldest()
      requires Valid() && order != []
      modifies this
      ensures Valid()
      ensures order == old(order)[1..] && entries == old(entries) - {old(order)[0]}
    {
      var oldest := order[0];
      order := order[1..];
      entries := entries - {oldest};
    }

    /** `del cache[key]`. */
    method Delete(key: string)
      requires Valid()
      modifies this
      ensures Valid()
      ensures order == Drop(old(order), {key}) && entries == old(entries) - {key}
    {
      DropDistinct(order, {key});
      forall x ensures x in Drop(order, {key}) <==> x in order && x != key {
        DropMembers(order, {key}, x);
      }
      entries := entries - {key};
      order := Drop(order, {key});
    }

    /** `expired_keys`: the expired keys, oldest first. */
    method ExpiredKeys(now: real) returns (keys: seq<string>)
      requires Valid()
      ensures keys == Stale(order, entries, ttl, now)
    {
      keys := [];
      for i := 0 to |order|
        invariant keys == Stale(order[..i], entries, ttl, now)
      {
        StaleStep(order, i, entries, ttl, now);
        assert order[i] in Elements(order);
        if Expired(entries[order[i]], ttl, now) {
          keys := keys + [order[i]];
        }
      }
      assert order[..|order|] == order;
    }

    /** `del cache[key]` for each listed key. */
    method DeleteKeys(keys: seq<string>)
      requires Valid()
      modifies this
      ensures Valid()
      ensures order == Drop(old(order), Elements(keys))
      ensures entries == old(entries) - Elements(keys)
    {
      ghost var start := order;
      ghost var startEntries := entries;
      ghost var removed: set<string> := {};
      DropNothing(start);
      for i := 0 to |keys|
        invariant removed == Elements(keys[..i])
        invariant order == Drop(start, removed)
        invariant entries == startEntries - removed
        invariant Valid()
      {
        var key := keys[i];
        assert keys[..i + 1] == keys[..i] + [key];
        ElementsAppend(keys[..i], key);
        MinusMinus(startEntries, removed, key);
        DropDrop(start, removed, {key});
        Delete(key);
        removed := removed + {key};
      }
      assert keys[..|keys|] == keys;
    }

    /** `clear_expired`: deletes exactly the expired entries, keeps the order of the
        rest, and returns how many it deleted. */
    method ClearExpired(now: real) returns (count: int)
      requires Valid()
      modifies this
      ensures Valid()
      ensures order == Fresh(old(order), old(entries), ttl, now)
      ensures entries == Live(old(entries), ttl, now)
      ensures count == |Stale(old(order), old(entries), ttl, now)| == |old(order)| - |order|
    {
      var expiredKeys := ExpiredKeys(now);
      ghost var start := order;
      ghost var startEntries := entries;
      DeleteKeys(expiredKeys);
      StaleFresh(start, startEntries, ttl, now);
      assert entries == Live(startEntries, ttl, now);
      count := |expiredKeys|;
    }

    /** `get_stats`: the hit counters it reads are never set, so the hit rate is
        always 0 / 1. */
    method GetStats() returns (size: int, maxSizeOut: int, hitRate: real, compressionEnabled: bool)
      requires Valid()
      ensures size == |entries| == |order|
      ensures maxSizeOut == maxSize && hitRate == 0.0 && compressionEnabled == compress
    {
      size := |order|;
      CardOfKeys(order, entries);
      maxSizeOut := maxSize;
      hitRate := 0.0 / 1.0;
      compressionEnabled := compress;
    }
  }

  /** A map whose keys are exactly the entries of a repetition-free list has that
      many entries. */
  lemma {:induction false} CardOfKeys<V>(s: seq<string>, m: map<string, Entry<V>>)
    requires Distinct(s) && forall k :: k in m <==> k in s
    ensures |m| == |s|
    decreases |s|
  {
    if s == [] {
      assert m == map[];
    } else {
      var k := s[|s| - 1];
      var p := s[..|s| - 1];
      var m' := m - {k};
      assert forall x :: x in m' <==> x in p;
      CardOfKeys(p, m');
      assert m'.Keys + {k} == m.Keys;
    }
  }
}

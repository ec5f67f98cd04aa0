// The connection registry of connection_manager.py. `active_connections` is a dict
// kept in insertion order: the map `active` plus the key order `ids`. The clock is
// the parameter `now`; the asyncio cleanup loop and start/stop are not modelled,
// only the sweeps they call.

module Connections {
  import opened Base
  import opened Caches

  /** One registered connection's record. */
  datatype Conn = Conn(createdAt: real, lastActivity: real, clientInfo: map<string, string>, requestsCount: int)

  /** What `get_connection_stats` returns. */
  datatype Stats = Stats(activeConnections: int, totalConnections: int, maxConnections: int,
                         avgConnectionDuration: real, oldestConnectionAge: real)

  /** A connection is stale when it has been idle strictly longer than the timeout. */
  predicate IsStale(c: Conn, timeout: int, now: real)
  {
    now - c.lastActivity > timeout as real
  }

  /** The stale ids of `s`, in dict order: `stale_connections`. */
  function StaleIds(s: seq<string>, m: map<string, Conn>, timeout: int, now: real): seq<string>
    decreases |s|
  {
    if s == [] then []
    else
      var k := s[|s| - 1];
      StaleIds(s[..|s| - 1], m, timeout, now) + (if k in m && IsStale(m[k], timeout, now) then [k] else [])
  }

  lemma StaleIdsStep(s: seq<string>, i: nat, m: map<string, Conn>, timeout: int, now: real)
    requires i < |s|
    ensures StaleIds(s[..i + 1], m, timeout, now) == StaleIds(s[..i], m, timeout, now)
      + (if s[i] in m && IsStale(m[s[i]], timeout, now) then [s[i]] else [])
  {
    assert s[..i + 1][..i] == s[..i];
  }

  /** The stale list names exactly the listed ids whose connection is stale, each once. */
  lemma {:induction false} StaleIdsExact(s: seq<string>, m: map<string, Conn>, timeout: int, now: real)
    requires Distinct(s)
    ensures Distinct(StaleIds(s, m, timeout, now))
    ensures forall x :: x in StaleIds(s, m, timeout, now) <==> x in s && x in m && IsStale(m[x], timeout, now)
    decreases |s|
  {
    if s != [] {
      var p := s[..|s| - 1];
      StaleIdsExact(p, m, timeout, now);
      assert s == p + [s[|s| - 1]];
    }
  }

  /** The connections a sweep keeps. */
  function Kept(m: map<string, Conn>, timeout: int, now: real): map<string, Conn>
  {
    map k | k in m && !IsStale(m[k], timeout, now) :: m[k]
  }

  /** `[now - conn['created_at'] for conn in active_connections.values()]` */
  function Ages(s: seq<string>, m: map<string, Conn>, now: real): (r: seq<real>)
    requires Elements(s) <= m.Keys
    ensures |r| == |s|
    ensures forall i :: 0 <= i < |s| ==> r[i] == now - m[s[i]].createdAt
    decreases |s|
  {
    if s == [] then [] else Ages(s[..|s| - 1], m, now) + [now - m[s[|s| - 1]].createdAt]
  }

  function SumReal(s: seq<real>): real
    decreases |s|
  {
    if s == [] then 0.0 else SumReal(s[..|s| - 1]) + s[|s| - 1]
  }

  /** `max(s)` */
  function MaxReal(s: seq<real>): real
    requires s != []
    decreases |s|
  {
    if |s| == 1 then s[0]
    else var m := MaxReal(s[..|s| - 1]); if s[|s| - 1] > m then s[|s| - 1] else m
  }

  /** The maximum is one of the ages and no age exceeds it. */
  lemma {:induction false} MaxRealIsMax(s: seq<real>)
    requires s != []
    ensures MaxReal(s) in s
    ensures forall i :: 0 <= i < |s| ==> s[i] <= MaxReal(s)
    decreases |s|
  {
    if |s| > 1 {
      var p := s[..|s| - 1];
      MaxRealIsMax(p);
      assert forall i :: 0 <= i < |p| ==> s[i] == p[i];
    }
  }

  /** A sum of terms each at most `b` is at most `|s| * b`. */
  lemma {:induction false} SumRealBound(s: seq<real>, b: real)
    requires forall i :: 0 <= i < |s| ==> s[i] <= b
    ensures SumReal(s) <= |s| as real * b
    decreases |s|
  {
    if s != [] {
      SumRealBound(s[..|s| - 1], b);
    }
  }

  /** The reported average duration never exceeds the reported oldest age. */
  lemma MeanAtMostMax(s: seq<real>)
    requires s != []
    ensures SumReal(s) / |s| as real <= MaxReal(s)
  {
    MaxRealIsMax(s);
    SumRealBound(s, MaxReal(s));
    DivBound(SumReal(s), |s| as real, MaxReal(s));
  }

  lemma DivBound(x: real, n: real, m: real)
    requires n > 0.0 && x <= n * m
    ensures x / n <= m
  {
    assert x / n - m == (x - n * m) / n;
  }

  /** `ConnectionManager` */
  class ConnectionManager {
    const maxConnections: int
    const connectionTimeout: int
    var active: map<string, Conn>
    var ids: seq<string>
    var connectionCount: int
    var totalConnections: int

    /** The key order lists each registered id exactly once. */
    ghost predicate Valid()
      reads this
    {
      Distinct(ids) && active.Keys == Elements(ids)
    }

    constructor (maxConnectionsArg: int, connectionTimeoutArg: int)
      ensures Valid() && active == map[] && ids == []
      ensures connectionCount == 0 && totalConnections == 0
      ensures maxConnections == maxConnectionsArg && connectionTimeout == connectionTimeoutArg
    {
      maxConnections := maxConnectionsArg;
      connectionTimeout := connectionTimeoutArg;
      active := map[];
      ids := [];
      connectionCount := 0;
      totalConnections := 0;
    }

    /** `register_connection`: refused at the limit; otherwise the id's record is
        (re)written and both counters go up, even when the id was already there. */
    method Register(id: string, clientInfo: Option<map<string, string>>, now: real) returns (ok: bool)
      requires Valid()
      modifies this
      ensures Valid()
      ensures ok <==> old(connectionCount) < maxConnections
      ensures !ok ==> active == old(active) && ids == old(ids)
                      && connectionCount == old(connectionCount) && totalConnections == old(totalConnections)
      ensures ok ==> active == old(active)[id := Conn(now, now, if clientInfo.Some? then clientInfo.value else map[], 0)]
                     && ids == Placed(old(ids), id)
                     && connectionCount == old(connectionCount) + 1 && totalConnections == old(totalConnections) + 1
    {
      if connectionCount >= maxConnections {
        return false;
      }
      active := active[id := Conn(now, now, if clientInfo.Some? then clientInfo.value else map[], 0)];
      ids := Placed(ids, id);
      connectionCount := connectionCount + 1;
      totalConnections := totalConnections + 1;
      return true;
    }

    /** `update_connection_activity` */
    method UpdateActivity(id: string, now: real)
      requires Valid()
      modifies this
      ensures Valid() && ids == old(ids)
      ensures connectionCount == old(connectionCount) && totalConnections == old(totalConnections)
      ensures id !in old(active) ==> active == old(active)
      ensures id in old(active) ==>
        active == old(active)[id := old(active)[id].(lastActivity := now,
                                                      requestsCount := old(active)[id].requestsCount + 1)]
    {
      if id in active {
        active := active[id := active[id].(lastActivity := now, requestsCount := active[id].requestsCount + 1)];
      }
    }

    /** `unregister_connection` */
    method Unregister(id: string)
      requires Valid()
      modifies this
      ensures Valid() && totalConnections == old(totalConnections)
      ensures id !in old(active) ==> active == old(active) && ids == old(ids) && connectionCount == old(connectionCount)
      ensures id in old(active) ==>
        active == old(active) - {id} && ids == Drop(old(ids), {id}) && connectionCount == old(connectionCount) - 1
    {
      if id in active {
        DropDistinct(ids, {id});
        forall x ensures x in Drop(ids, {id}) <==> x in ids && x != id {
          DropMembers(ids, {id}, x);
        }
        active := active - {id};
        ids := Drop(ids, {id});
        connectionCount := connectionCount - 1;
      }
    }

    /** `get_connection_stats`. The average and the oldest age range over the
        dict's records, while `active_connections` reports the counter. */
    method GetStats(now: real) returns (stats: Stats)
      requires Valid()
      ensures stats.activeConnections == connectionCount && stats.totalConnections == totalConnections
      ensures stats.maxConnections == maxConnections
      ensures ids == [] ==> stats.avgConnectionDuration == 0.0 && stats.oldestConnectionAge == 0.0
      ensures ids != [] ==>
        stats.avgConnectionDuration == SumReal(Ages(ids, active, now)) / |ids| as real
        && stats.oldestConnectionAge == MaxReal(Ages(ids, active, now))
    {
      var activeDurations := Ages(ids, active, now);
      stats := Stats(connectionCount, totalConnections, maxConnections,
                     if activeDurations != [] then SumReal(activeDurations) / |activeDurations| as real else 0.0,
                     if activeDurations != [] then MaxReal(activeDurations) else 0.0);
    }

    /** The first loop of `_cleanup_stale_connections`. */
    method CollectStale(now: real) returns (stale: seq<string>)
      requires Valid()
      ensures stale == StaleIds(ids, active, connectionTimeout, now)
    {
      stale := [];
      for i := 0 to |ids|
        invariant stale == StaleIds(ids[..i], active, connectionTimeout, now)
      {
        StaleIdsStep(ids, i, active, connectionTimeout, now);
        assert ids[i] in Elements(ids);
        if now - active[ids[i]].lastActivity > connectionTimeout as real {
          stale := stale + [ids[i]];
        }
      }
      assert ids[..|ids|] == ids;
    }

    /** `unregister_connection` for each listed id, each listed once. */
    method UnregisterEach(keys: seq<string>)
      requires Valid() && Distinct(keys) && Elements(keys) <= active.Keys
      modifies this
      ensures Valid() && totalConnections == old(totalConnections)
      ensures ids == Drop(old(ids), Elements(keys)) && active == old(active) - Elements(keys)
      ensures connectionCount == old(connectionCount) - |keys|
    {
      ghost var start := ids;
      ghost var startActive := active;
      ghost var removed: set<string> := {};
      DropNothing(start);
      for i := 0 to |keys|
        invariant removed == Elements(keys[..i])
        invariant ids == Drop(start, removed) && active == startActive - removed
        invariant connectionCount == old(connectionCount) - i && totalConnections == old(totalConnections)
        invariant Valid()
      {
        var key := keys[i];
        UnregisterStep(keys, i, removed, start, startActive);
        Unregister(key);
        removed := removed + {key};
      }
      assert keys[..|keys|] == keys;
    }

    /** `_cleanup_stale_connections`: removes exactly the stale connections, keeps the
        others and their order, and counts each removal once. */
    method CleanupStale(now: real)
      requires Valid()
      modifies this
      ensures Valid() && totalConnections == old(totalConnections)
      ensures active == Kept(old(active), connectionTimeout, now)
      ensures ids == Drop(old(ids), Elements(StaleIds(old(ids), old(active), connectionTimeout, now)))
      ensures connectionCount == old(connectionCount) - |StaleIds(old(ids), old(active), connectionTimeout, now)|
    {
      var staleConnections := CollectStale(now);
      StaleIdsExact(ids, active, connectionTimeout, now);
      UnregisterEach(staleConnections);
    }

    /** `_cleanup_all_connections` */
    method CleanupAll()
      requires Valid()
      modifies this
      ensures Valid() && active == map[] && ids == []
      ensures connectionCount == old(connectionCount) - |old(ids)| && totalConnections == old(totalConnections)
    {
      var connectionIds := ids;
      DropAll(ids);
      UnregisterEach(connectionIds);
    }
  }

  /** One turn of `UnregisterEach`: the next key is still registered, and removing
      it after the keys before it removes the keys up to it. */
  lemma UnregisterStep(keys: seq<string>, i: nat, removed: set<string>, start: seq<string>,
                       m: map<string, Conn>)
    requires Distinct(keys) && i < |keys| && removed == Elements(keys[..i]) && Elements(keys) <= m.Keys
    ensures keys[i] in m - removed
    ensures Elements(keys[..i + 1]) == removed + {keys[i]}
    ensures Drop(Drop(start, removed), {keys[i]}) == Drop(start, removed + {keys[i]})
    ensures (m - removed) - {keys[i]} == m - (removed + {keys[i]})
  {
    assert keys[..i + 1] == keys[..i] + [keys[i]];
    ElementsAppend(keys[..i], keys[i]);
    DropDrop(start, removed, {keys[i]});
    assert keys[i] in Elements(keys);
  }

  /** Dropping every element of a list leaves nothing. */
  lemma {:induction false} DropAll(s: seq<string>)
    ensures Drop(s, Elements(s)) == []
    decreases |s|
  {
    if s != [] {
      var p := s[..|s| - 1];
      DropAll(p);
      DropSuperset(p, Elements(p), Elements(s));
    }
  }

  lemma {:induction false} DropSuperset(s: seq<string>, d: set<string>, e: set<string>)
    requires Drop(s, d) == [] && d <= e
    ensures Drop(s, e) == []
    decreases |s|
  {
    if s != [] {
      DropSuperset(s[..|s| - 1], d, e);
    }
  }

  /** Writing a record for an id that is not registered yet adds one entry; for an
      id that is, the entry count stays put while `register_connection` still
      raises `connection_count`. */
  lemma RegisterSize(m: map<string, Conn>, id: string, c: Conn)
    ensures id !in m ==> |m[id := c]| == |m| + 1
    ensures id in m ==> |m[id := c]| == |m|
  {
    if id in m {
      assert m[id := c].Keys == m.Keys;
    } else {
      assert m[id := c].Keys == m.Keys + {id};
    }
  }

  /** `managed_connection`: raises when registration is refused; otherwise the body
      runs (its own calls are the caller's) and the id is always unregistered. For
      an id that was not registered before, the registry ends as it started, with
      one more connection served. */
  method ManagedConnection(manager: ConnectionManager, id: string, clientInfo: Option<map<string, string>>,
                           now: real)
    returns (raised: bool)
    requires manager.Valid()
    modifies manager
    ensures manager.Valid()
    ensures raised <==> old(manager.connectionCount) >= manager.maxConnections
    ensures raised ==> manager.active == old(manager.active) && manager.ids == old(manager.ids)
                       && manager.connectionCount == old(manager.connectionCount)
                       && manager.totalConnections == old(manager.totalConnections)
    ensures !raised ==> id !in manager.active && manager.connectionCount == old(manager.connectionCount)
                        && manager.totalConnections == old(manager.totalConnections) + 1
    ensures !raised && id !in old(manager.active) ==>
      manager.active == old(manager.active) && manager.ids == old(manager.ids)
    ensures !raised && id in old(manager.active) ==>
      manager.active == old(manager.active) - {id} && manager.ids == Drop(old(manager.ids), {id})
  {
    var ok := manager.Register(id, clientInfo, now);
    if !ok {
      return true;
    }
    var c := Conn(now, now, if clientInfo.Some? then clientInfo.value else map[], 0);
    if id !in old(manager.active) {
      RegisterThenUnregister(old(manager.active), old(manager.ids), id, c);
    } else {
      RewriteThenUnregister(old(manager.active), old(manager.ids), id, c);
    }
    manager.Unregister(id);
    return false;
  }

  /** Re-registering an active id and unregistering it removes the id: its old
      record is gone along with the new one. */
  lemma RewriteThenUnregister(m: map<string, Conn>, ids: seq<string>, id: string, c: Conn)
    requires id in m && m.Keys == Elements(ids)
    ensures m[id := c] - {id} == m - {id}
    ensures Placed(ids, id) == ids
  {
    assert id in ids;
  }

  /** Registering a new id and unregistering it again restores the registry. */
  lemma RegisterThenUnregister(m: map<string, Conn>, ids: seq<string>, id: string, c: Conn)
    requires id !in m && m.Keys == Elements(ids)
    ensures m[id := c] - {id} == m
    ensures Drop(Placed(ids, id), {id}) == ids
  {
    assert id !in ids;
    DropAppend(ids, id, {id});
    DropSame(ids, {id}, {});
    DropNothing(ids);
  }
}

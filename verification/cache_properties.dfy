/**
 What the reference cache promises across its operations: residency of the
 inserted key, at most one foreign removal per `put`, the size bound, the
 notification and self-conflict accounting, the order of events, and the
 invariant that the policy tracks exactly the resident keys.
 */
module CacheProperties {

  import opened EvictionPolicy
  import opened CacheEvents
  import opened EvaluationCache

  // ---------------------------------------------------------------------
  // Helpers about maps and multisets
  // ---------------------------------------------------------------------

  lemma MapRemoveSize<K, V>(m: map<K, V>, k: K)
    ensures |m - {k}| == if k in m then |m| - 1 else |m|
  {
    var r := m - {k};
    if k in m {
      assert m.Keys == r.Keys + {k};
      assert |m.Keys| == |r.Keys| + 1;
    } else {
      assert m.Keys == r.Keys;
    }
  }

  /** Dropping `v` and then storing `k` (another key) touches nothing else. */
  lemma MapDropStore<K, V>(m: map<K, V>, v: K, k: K, e: V)
    requires v != k
    ensures var r := (m - {v})[k := e];
      && v !in r
      && r.Keys == m.Keys - {v} + {k}
      && (forall x :: x in m && x != k && x != v ==> r[x] == m[x])
  {
  }

  lemma MultisetOfKeysUpdate<K>(keys: set<K>, add: K, drop: K)
    requires drop in keys && add !in keys && add != drop
    ensures multiset((keys - {drop}) + {add}) == multiset(keys) + multiset{add} - multiset{drop}
  {
    var lhs := multiset((keys - {drop}) + {add});
    var rhs := multiset(keys) + multiset{add} - multiset{drop};
    forall x
      ensures lhs[x] == rhs[x]
    {
      if x == add {
      } else if x == drop {
      } else {
      }
    }
  }

  // ---------------------------------------------------------------------
  // put
  // ---------------------------------------------------------------------

  /** The effect of one `put` at capacity on the state: the self-conflicts
      are counted, and the first other pick is dropped from both the map and
      the policy before the key is stored. */
  lemma PutEvicting<K, V>(c: Cache<K, V>, key: K, value: V, picks: seq<K>)
    requires EvictionRuns(c) && PolicyDecides(c, key, picks)
    ensures Put(c, key, value, picks).content == (c.content - {Victim(picks)})[key := Entry(key, value)]
    ensures Put(c, key, value, picks).policy
            == c.policy.(tracked := c.policy.tracked + multiset{key} - multiset{Victim(picks)})
    ensures Put(c, key, value, picks).evictSpinCnt == c.evictSpinCnt + Spins(picks)
  {
  }

  /** The events of one `put` at capacity. */
  lemma PutEvictingLog<K, V>(c: Cache<K, V>, key: K, value: V, picks: seq<K>)
    requires EvictionRuns(c) && PolicyDecides(c, key, picks)
    ensures Put(c, key, value, picks).log
            == c.log + PutEvents(key, value, true, Spins(picks), Victim(picks))
  {
    var j := Spins(picks);
    var v := Victim(picks);
    var c1 := Register(c, key, value);
    var c2 := SpinThenEvict(c1, key, value, j, v);
    var reg: seq<Event<K, V>> := [Registered(key, value)];
    var spun := SpinEvents(key, value, j) + VictimEvents(v);
    var put: seq<Event<K, V>> := [ContentPut(key)];
    assert c2.log == c.log + reg + spun;
    var l := Put(c, key, value, picks).log;
    assert l == c2.log + put;
    assert l == c.log + (reg + spun + put);
  }

  /** The effect of one `put` below capacity: the key is registered and
      stored, nothing else happens. */
  lemma PutQuiet<K, V>(c: Cache<K, V>, key: K, value: V, picks: seq<K>)
    requires !EvictionRuns(c)
    ensures PolicyDecides(c, key, picks)
    ensures Put(c, key, value, picks).content == c.content[key := Entry(key, value)]
    ensures Put(c, key, value, picks).policy == c.policy.(tracked := c.policy.tracked + multiset{key})
    ensures Put(c, key, value, picks).evictSpinCnt == c.evictSpinCnt
    ensures Put(c, key, value, picks).log == c.log + PutEvents(key, value, false, 0, key)
  {
    assert PutEvents(key, value, false, 0, key) == [Registered(key, value)] + [ContentPut(key)];
  }

  /** Either way. */
  lemma PutShape<K, V>(c: Cache<K, V>, key: K, value: V, picks: seq<K>)
    requires PolicyDecides(c, key, picks)
    ensures var evicting := EvictionRuns(c);
      var j := if evicting then Spins(picks) else 0;
      var v := if evicting then Victim(picks) else key;
      Put(c, key, value, picks).log == c.log + PutEvents(key, value, evicting, j, v)
  {
    if EvictionRuns(c) {
      PutEvictingLog(c, key, value, picks);
    } else {
      PutQuiet(c, key, value, picks);
    }
  }

  /** Residency as `get` observes it: right after `put(k, v)`, `get(k)` hits
      and returns `v`, whatever the policy did during the put. */
  lemma GetAfterPut<K, V>(c: Cache<K, V>, key: K, value: V, picks: seq<K>)
    requires PolicyDecides(c, key, picks)
    ensures Get(Put(c, key, value, picks), key).0 == Some(value)
  {
  }

  /** Below capacity nothing is evicted and no listener hears anything: the
      map gains or updates exactly `key`, the counter stays, and the size
      grows by one exactly when `key` was absent. */
  lemma PutBelowCapacity<K, V>(c: Cache<K, V>, key: K, value: V, picks: seq<K>)
    requires !EvictionRuns(c)
    ensures PolicyDecides(c, key, picks)
    ensures var r := Put(c, key, value, picks);
      && r.content.Keys == c.content.Keys + {key}
      && (forall k :: k in c.content && k != key ==> r.content[k] == c.content[k])
      && |r.content| == (if key in c.content then |c.content| else |c.content| + 1)
      && r.evictSpinCnt == c.evictSpinCnt
      && Notifications(r.log) == Notifications(c.log)
      && r.policy.tracked == c.policy.tracked + multiset{key}
  {
    var r := Put(c, key, value, picks);
    NotificationsAppend(c.log, [Registered(key, value)]);
    NotificationsAppend(c.log + [Registered(key, value)], [ContentPut(key)]);
    LogOfOne(Registered(key, value));
    LogOfOne<K, V>(ContentPut(key));
  }

  /** At (or over) capacity exactly one eviction happens: the victim is a key
      other than `key`, it is absent afterwards, and every other key keeps
      its entry. This also happens when `key` was already resident. */
  lemma PutAtCapacity<K, V>(c: Cache<K, V>, key: K, value: V, picks: seq<K>)
    requires EvictionRuns(c) && PolicyDecides(c, key, picks)
    ensures var r := Put(c, key, value, picks);
      var v := Victim(picks);
      && v != key
      && v !in r.content
      && r.content.Keys == c.content.Keys - {v} + {key}
      && (forall k :: k in c.content && k != key && k != v ==> r.content[k] == c.content[k])
      && r.evictSpinCnt == c.evictSpinCnt + Spins(picks)
      && r.policy.tracked == c.policy.tracked + multiset{key} - multiset{v}
  {
    PutEvicting(c, key, value, picks);
    MapDropStore(c.content, Victim(picks), key, Entry(key, value));
  }

  /** The size after a `put` at capacity accounts for both the insertion and
      the victim: it stays when `key` was new and the victim resident, and
      drops by one when `key` was resident. */
  lemma PutAtCapacitySize<K, V>(c: Cache<K, V>, key: K, value: V, picks: seq<K>)
    requires EvictionRuns(c) && PolicyDecides(c, key, picks)
    ensures |Put(c, key, value, picks).content|
            == |c.content| + (if key in c.content then 0 else 1) - (if Victim(picks) in c.content then 1 else 0)
  {
    var v := Victim(picks);
    PutEvicting(c, key, value, picks);
    MapRemoveSize(c.content, v);
    assert key in c.content <==> key in c.content - {v};
  }

  /** Every `evict()` result is reported, self-conflicts included: the
      listeners hear the whole trace, victim included, one more
      notification than the counter grew by, and `newEntry` is re-issued once
      per self-conflict. Without eviction nobody is notified. */
  lemma PutNotifications<K, V>(c: Cache<K, V>, key: K, value: V, picks: seq<K>)
    requires PolicyDecides(c, key, picks)
    ensures var r := Put(c, key, value, picks);
      if EvictionRuns(c) then
        && Notifications(r.log) == Notifications(c.log) + picks
        && |Notifications(r.log)| == |Notifications(c.log)| + (r.evictSpinCnt - c.evictSpinCnt) + 1
        && Registrations(r.log) == Registrations(c.log) + seq(r.evictSpinCnt - c.evictSpinCnt + 1, _ => key)
      else
        && Notifications(r.log) == Notifications(c.log)
        && Registrations(r.log) == Registrations(c.log) + [key]
        && r.evictSpinCnt == c.evictSpinCnt
  {
    if EvictionRuns(c) {
      var j := Spins(picks);
      var v := Victim(picks);
      PutEvictingLog(c, key, value, picks);
      PutEvicting(c, key, value, picks);
      PutEventsExtend(c.log, key, value, true, j, v);
      TraceShape(picks, key);
    } else {
      PutQuiet(c, key, value, picks);
      PutEventsExtend(c.log, key, value, false, 0, key);
      assert seq(1, _ => key) == [key];
    }
  }

  /** The order of the events one `put` produces: it starts with `newEntry`,
      every `evict()` result is reported to the listeners immediately, the
      map removal of the victim comes only after its notification, and the
      new entry is stored in the map last. */
  lemma PutEventOrder<K, V>(c: Cache<K, V>, key: K, value: V, picks: seq<K>)
    requires PolicyDecides(c, key, picks)
    ensures var r := Put(c, key, value, picks);
      var e := r.log[|c.log|..];
      && |e| >= 2
      && e[0] == Registered(key, value)
      && e[|e| - 1] == ContentPut(key)
      && NotifiedBeforeRemoved(e)
  {
    var r := Put(c, key, value, picks);
    PutShape(c, key, value, picks);
    var evicting := EvictionRuns(c);
    var j := if evicting then Spins(picks) else 0;
    var v := if evicting then Victim(picks) else key;
    PutEventsOrdered(key, value, evicting, j, v);
    var e := PutEvents(key, value, evicting, j, v);
    assert r.log[|c.log|..] == e;
  }

  /** The size bound: a put never takes the map above capacity, provided
      that, when the key is new and eviction runs, the entry the policy gives
      up is resident. */
  lemma PutKeepsBound<K, V>(c: Cache<K, V>, key: K, value: V, picks: seq<K>)
    requires PolicyDecides(c, key, picks)
    requires |c.content| <= c.policy.capacity
    requires EvictionRuns(c) && key !in c.content ==> Victim(picks) in c.content
    ensures |Put(c, key, value, picks).content| <= c.policy.capacity
  {
    if EvictionRuns(c) {
      PutAtCapacitySize(c, key, value, picks);
    } else {
      PutBelowCapacity(c, key, value, picks);
    }
  }

  /** Inserting a key that is not resident keeps the policy tracking exactly
      the resident keys, and with it the size bound. */
  lemma PutFreshKeepsCoherence<K, V>(c: Cache<K, V>, key: K, value: V, picks: seq<K>)
    requires Coherent(c) && key !in c.content && PolicyDecides(c, key, picks)
    requires |c.content| <= c.policy.capacity
    ensures var r := Put(c, key, value, picks);
      Coherent(r) && |r.content| <= r.policy.capacity
  {
    var r := Put(c, key, value, picks);
    if EvictionRuns(c) {
      var v := Victim(picks);
      assert v in multiset(c.content.Keys);
      PutAtCapacity(c, key, value, picks);
      MultisetOfKeysUpdate(c.content.Keys, key, v);
    } else {
      PutBelowCapacity(c, key, value, picks);
      assert multiset(c.content.Keys + {key}) == multiset(c.content.Keys) + multiset{key};
    }
    PutKeepsBound(c, key, value, picks);
  }

  /** Updating a resident key registers it a second time with the policy:
      the superseded entry is never withdrawn, so the policy now tracks the
      key twice and no longer matches the map. */
  lemma PutResidentDuplicatesEntry<K, V>(c: Cache<K, V>, key: K, value: V, picks: seq<K>)
    requires Coherent(c) && key in c.content && PolicyDecides(c, key, picks)
    ensures var r := Put(c, key, value, picks);
      r.policy.tracked[key] == 2 && !Coherent(r)
  {
    var r := Put(c, key, value, picks);
    if EvictionRuns(c) {
      PutAtCapacity(c, key, value, picks);
    } else {
      PutBelowCapacity(c, key, value, picks);
    }
    assert multiset(r.content.Keys)[key] == 1;
  }

  /** When every resident key is the inserted one and eviction runs, a
      coherent policy can only ever return the inserted key: no legal
      sequence of decisions ends the loop. With capacity 1, updating the only
      resident key is such a case; so is any put with capacity 0 or less on
      an empty cache. */
  lemma {:induction false} OnlyInsertedKeyTrackedSpinsForever<K, V>(c: Cache<K, V>, key: K, picks: seq<K>)
    requires Coherent(c) && EvictionRuns(c)
    requires c.content.Keys <= {key}
    ensures !PolicyDecides(c, key, picks)
  {
    if IsEvictTrace(picks, key) {
      var v := Victim(picks);
      assert v != key;
      assert v !in c.content.Keys;
      assert multiset(c.content.Keys)[v] == 0;
    }
  }

  /** Two puts of the same key leave one entry holding the second value.
      The second put keeps the size only when it runs below capacity; at
      capacity it still evicts another resident key and the size drops. */
  lemma PutTwice<K, V>(c: Cache<K, V>, key: K, v1: V, v2: V, p1: seq<K>, p2: seq<K>)
    requires PolicyDecides(c, key, p1)
    requires PolicyDecides(Put(c, key, v1, p1), key, p2)
    ensures var c1 := Put(c, key, v1, p1);
      var c2 := Put(c1, key, v2, p2);
      && c2.content[key] == Entry(key, v2)
      && (!EvictionRuns(c1) ==> |c2.content| == |c1.content|)
      && (EvictionRuns(c1) && Victim(p2) in c1.content ==> |c2.content| == |c1.content| - 1)
  {
    var c1 := Put(c, key, v1, p1);
    if EvictionRuns(c1) {
      PutAtCapacitySize(c1, key, v2, p2);
    } else {
      PutBelowCapacity(c1, key, v2, p2);
    }
  }

  /** Each stored entry keeps carrying its own key across a put. */
  lemma PutKeepsWellKeyed<K, V>(c: Cache<K, V>, key: K, value: V, picks: seq<K>)
    requires WellKeyed(c) && PolicyDecides(c, key, picks)
    ensures WellKeyed(Put(c, key, value, picks))
  {
    var r := Put(c, key, value, picks);
    if EvictionRuns(c) {
      PutAtCapacity(c, key, value, picks);
    } else {
      PutBelowCapacity(c, key, value, picks);
    }
    forall k | k in r.content
      ensures r.content[k].key == k
    {
      if k != key {
        assert k in c.content;
      }
    }
  }

  // ---------------------------------------------------------------------
  // get, remove, close
  // ---------------------------------------------------------------------

  /** `get` and `remove` keep the policy tracking exactly the resident keys. */
  lemma GetRemoveKeepCoherence<K, V>(c: Cache<K, V>, key: K)
    requires Coherent(c)
    ensures Coherent(Get(c, key).1)
    ensures Coherent(Remove(c, key))
  {
    var r := Remove(c, key);
    if key in c.content {
      assert c.content.Keys == r.content.Keys + {key};
      assert multiset(c.content.Keys) == multiset(r.content.Keys) + multiset{key};
    } else {
      assert r.content.Keys == c.content.Keys;
    }
  }

  /** `remove` undoes a `put` of an absent key that ran below capacity: the
      map and the policy are back where they were. */
  lemma RemoveUndoesPut<K, V>(c: Cache<K, V>, key: K, value: V, picks: seq<K>)
    requires key !in c.content && !EvictionRuns(c)
    ensures var r := Remove(Put(c, key, value, picks), key);
      r.content == c.content && r.policy == c.policy
  {
    PutBelowCapacity(c, key, value, picks);
    var r := Remove(Put(c, key, value, picks), key);
    assert r.content.Keys == c.content.Keys;
    assert c.policy.tracked + multiset{key} - multiset{key} == c.policy.tracked;
  }

  /** The capacity is fixed for the cache's lifetime: no operation changes
      what `getCapacity()` returns. */
  lemma CapacityIsConstant<K, V>(c: Cache<K, V>, key: K, value: V, picks: seq<K>)
    requires PolicyDecides(c, key, picks)
    ensures GetCapacity(Put(c, key, value, picks)) == GetCapacity(c)
    ensures GetCapacity(Get(c, key).1) == GetCapacity(c)
    ensures GetCapacity(Remove(c, key)) == GetCapacity(c)
    ensures GetCapacity(Close(c)) == GetCapacity(c)
  {
  }

  /** A freshly created cache satisfies the invariants every run starts from. */
  lemma CreateIsCoherent<K, V>(capacity: int)
    requires capacity >= 0
    ensures var c: Cache<K, V> := Create(Fresh(capacity));
      Coherent(c) && WellKeyed(c) && |c.content| <= c.policy.capacity
  {
    var c: Cache<K, V> := Create(Fresh(capacity));
    assert c.content.Keys == {};
  }
}

/**
 Concrete runs of the reference cache, with integer keys and values and the
 policy's eviction choices written out.
 */
module Scenarios {

  import opened EvictionPolicy
  import opened CacheEvents
  import opened EvaluationCache
  import opened CacheProperties

  /** Capacity 2 and an LRU policy, with A = 1, B = 2, C = 3: the puts of
      A and B run below capacity and nobody is notified. */
  lemma LruFill()
    ensures var c0: Cache<int, int> := Create(Fresh(2));
      var c2 := Put(Put(c0, 1, 10, []), 2, 20, []);
      && c2.content == map[1 := Entry(1, 10), 2 := Entry(2, 20)]
      && c2.policy == Policy(2, multiset{1, 2})
      && Notifications(c2.log) == []
  {
    var c0: Cache<int, int> := Create(Fresh(2));
    PutBelowCapacity(c0, 1, 10, []);
    var c1 := Put(c0, 1, 10, []);
    assert c1.content.Keys == {1};
    PutBelowCapacity(c1, 2, 20, []);
    var none: seq<int> := [];
    assert Notifications(c0.log) == none;
  }

  /** Continuing the trace A, B, A, C: the read of A hits, returns its
      value and notifies nobody. */
  lemma LruRead(c: Cache<int, int>)
    requires c.content == map[1 := Entry(1, 10), 2 := Entry(2, 20)] && Notifications(c.log) == []
    ensures Get(c, 1).0 == Some(10) && Get(c, 1).1.content == c.content
    ensures Notifications(Get(c, 1).1.log) == []
  {
    NotificationsAppend(c.log, [Hit(1)]);
    LogOfOne<int, int>(Hit(1));
  }

  /** ... and the put of C evicts B, the least recently used key, which is
      the only key the listeners hear of. */
  lemma LruEvict(c: Cache<int, int>)
    requires c.content.Keys == {1, 2}
    requires c.policy == Policy(2, multiset{1, 2}) && Notifications(c.log) == []
    ensures var c3 := Put(c, 3, 30, [2]);
      && c3.content.Keys == {1, 3}
      && Notifications(c3.log) == [2]
      && c3.evictSpinCnt == c.evictSpinCnt
  {
    PutAtCapacity(c, 3, 30, [2]);
    PutNotifications(c, 3, 30, [2]);
  }

  /** A self-conflict: capacity 1, B = 2 resident, and a policy that first
      hands back the entry just created for A = 1. The cache counts one spin,
      tells the listeners about A and then about B, and ends with only A. */
  lemma SelfConflictScenario(c: Cache<int, int>)
    requires c.content.Keys == {2} && c.policy == Policy(1, multiset{2}) && Notifications(c.log) == []
    ensures var r := Put(c, 1, 10, [1, 2]);
      && r.content == map[1 := Entry(1, 10)]
      && r.evictSpinCnt == c.evictSpinCnt + 1
      && Notifications(r.log) == [1, 2]
  {
    PutEvicting(c, 1, 10, [1, 2]);
    PutNotifications(c, 1, 10, [1, 2]);
  }

  /** Capacity 1 on an empty cache: the map is not yet at capacity before
      the insertion, so no eviction runs and the policy is not consulted. */
  lemma FirstPutNeverEvicts()
    ensures var c0: Cache<int, int> := Create(Fresh(1));
      var c1 := Put(c0, 1, 10, []);
      c1.content == map[1 := Entry(1, 10)] && c1.evictSpinCnt == 0 && Notifications(c1.log) == []
  {
    var c0: Cache<int, int> := Create(Fresh(1));
    PutBelowCapacity(c0, 1, 10, []);
  }

  /** Updating a resident key leaves the superseded entry with the policy:
      capacity 2, puts of 1, of 1 again and of 2 leave keys 1 and 2 resident
      while the policy tracks key 1 twice. */
  lemma StaleEntrySetup()
    ensures var c0: Cache<int, int> := Create(Fresh(2));
      var c3 := Put(Put(Put(c0, 1, 10, []), 1, 11, []), 2, 20, []);
      c3.content.Keys == {1, 2} && c3.policy == Policy(2, multiset{1, 1, 2})
  {
    var c0: Cache<int, int> := Create(Fresh(2));
    PutQuiet(c0, 1, 10, []);
    var c1 := Put(c0, 1, 10, []);
    assert c1.content.Keys == {1};
    PutQuiet(c1, 1, 11, []);
    var c2 := Put(c1, 1, 11, []);
    assert c2.content.Keys == {1};
    PutQuiet(c2, 2, 20, []);
  }

  /** From there, a policy that evicts the stale entry for key 1 twice makes
      the second eviction remove nothing from the map, which then holds three
      keys at capacity 2. */
  lemma StaleEntryOverflow(c: Cache<int, int>)
    requires c.content.Keys == {1, 2} && c.policy == Policy(2, multiset{1, 1, 2})
    ensures var c5 := Put(Put(c, 3, 30, [1]), 4, 40, [1]);
      c5.content.Keys == {2, 3, 4} && |c5.content| > GetCapacity(c5)
  {
    PutEvicting(c, 3, 30, [1]);
    var c4 := Put(c, 3, 30, [1]);
    assert c4.content.Keys == {2, 3};
    assert multiset{1, 1, 2} + multiset{3} - multiset{1} == multiset{1, 2, 3};
    assert c4.policy.tracked == multiset{1, 2, 3};
    PutEvicting(c4, 4, 40, [1]);
    var c5 := Put(c4, 4, 40, [1]);
    assert c5.content.Keys == {2, 3, 4};
    assert |c5.content| == |c5.content.Keys|;
  }
}

/**
 The reference cache: a key-to-entry map whose every eviction decision is
 delegated to an eviction policy. Single-threaded; capacity is enforced on
 `put` in evict-after mode (the entry for the inserted key is created first,
 then, if the map was already at capacity, the policy is asked to evict).

 The policy's choices are not computed here. `Put` receives them as
 `picks`, the keys of the entries the policy's `evict()` returns during
 that `put`, in the order it returns them.
 */
module EvaluationCache {

  import opened EvictionPolicy
  import opened CacheEvents

  datatype Cache<K(==), V> = Cache(
    content: map<K, Entry<K, V>>,
    policy: Policy<K, V>,
    evictSpinCnt: nat,
    log: seq<Event<K, V>>)

  /** The constructor: an empty map, a zero spin counter, and the given
      policy, which the cache owns from now on. */
  function Create<K(==), V>(policy: Policy<K, V>): (c: Cache<K, V>)
    ensures |c.content| == 0 && c.evictSpinCnt == 0 && c.log == []
    ensures c.policy == policy
  {
    Cache(map[], policy, 0, [])
  }

  /** Every key the policy tracks is resident, exactly once, and every
      resident key is tracked: no dangling and no duplicate entries. */
  ghost predicate Coherent<K, V>(c: Cache<K, V>)
  {
    c.policy.tracked == multiset(c.content.Keys)
  }

  /** Every stored entry carries the key it is stored under. */
  ghost predicate WellKeyed<K, V>(c: Cache<K, V>)
  {
    forall k :: k in c.content ==> c.content[k].key == k
  }

  /** The test at the head of the evict-after branch: the map is already at
      (or over) capacity before the new entry is stored. */
  predicate EvictionRuns<K(==), V>(c: Cache<K, V>)
  {
    |c.content| >= c.policy.capacity
  }

  /** `picks` is everything `evict()` returns during one `put`, in order:
      the entry just created for `key` once per self-conflict, then an entry
      for another key, whose removal ends the loop. */
  predicate IsEvictTrace<K(==)>(picks: seq<K>, key: K)
  {
    && |picks| > 0
    && picks[|picks| - 1] != key
    && forall i :: 0 <= i < |picks| - 1 ==> picks[i] == key
  }

  /** The number of self-conflicts in a trace. */
  function Spins<K>(picks: seq<K>): nat
    requires |picks| > 0
  {
    |picks| - 1
  }

  /** The key whose removal ends the eviction loop. */
  function Victim<K>(picks: seq<K>): K
    requires |picks| > 0
  {
    picks[|picks| - 1]
  }

  /** A trace is the inserted key once per self-conflict, then the victim. */
  lemma TraceShape<K>(picks: seq<K>, key: K)
    requires IsEvictTrace(picks, key)
    ensures picks == seq(Spins(picks), _ => key) + [Victim(picks)]
  {
    var s := seq(Spins(picks), _ => key) + [Victim(picks)];
    assert |s| == |picks|;
    forall i | 0 <= i < |picks|
      ensures picks[i] == s[i]
    {
      if i < Spins(picks) {
        assert s[i] == key;
      }
    }
  }

  /** Conversely, any number of self-conflicts followed by another key is a
      trace. */
  lemma TraceOf<K>(key: K, n: nat, victim: K)
    requires victim != key
    ensures var picks := seq(n, _ => key) + [victim];
      IsEvictTrace(picks, key) && Spins(picks) == n && Victim(picks) == victim
  {
    var picks := seq(n, _ => key) + [victim];
    forall i | 0 <= i < |picks| - 1
      ensures picks[i] == key
    {
      assert picks[i] == seq(n, _ => key)[i];
    }
  }

  /** What `put` needs of the policy: when eviction runs, the policy
      eventually returns an entry for a key other than the inserted one,
      and that entry is one it tracks. Without the first half the source's
      loop does not terminate. */
  predicate PolicyDecides<K(==), V>(c: Cache<K, V>, key: K, picks: seq<K>)
  {
    EvictionRuns(c) ==>
      IsEvictTrace(picks, key) && Victim(picks) in c.policy.tracked
  }

  /** `eviction.newEntry(key, value)`. */
  function Register<K(==), V>(c: Cache<K, V>, key: K, value: V): (r: Cache<K, V>)
    ensures r.content == c.content && r.evictSpinCnt == c.evictSpinCnt
    ensures r.policy.capacity == c.policy.capacity
    ensures r.policy.tracked == c.policy.tracked + multiset{key}
    ensures r.log == c.log + [Registered(key, value)]
  {
    c.(policy := c.policy.NewEntry(key, value), log := c.log + [Registered(key, value)])
  }

  /** One self-conflict: `evict()` hands back the entry just created for
      `key`, the listeners hear of it, a new entry is registered and the
      spin is counted. The map and the policy's tracked keys are as before. */
  function SelfConflict<K(==), V>(c: Cache<K, V>, key: K, value: V): (r: Cache<K, V>)
    requires key in c.policy.tracked
    ensures r.content == c.content && r.policy == c.policy
    ensures r.evictSpinCnt == c.evictSpinCnt + 1
    ensures r.log == c.log + [EvictReturned(key), Notified(key), Registered(key, value)]
  {
    var c1 := c.(policy := c.policy.Evict(key), log := c.log + [EvictReturned(key), Notified(key)]);
    EvictThenRegister(c.policy, key, value);
    Register(c1, key, value).(evictSpinCnt := c1.evictSpinCnt + 1)
  }

  /** The eviction that ends the loop: `evict()` hands back an entry for
      another key, the listeners hear of it, and it leaves the map. */
  function EvictOther<K(==), V>(c: Cache<K, V>, victim: K): (r: Cache<K, V>)
    requires victim in c.policy.tracked
    ensures r.content == c.content - {victim}
    ensures r.policy == c.policy.(tracked := c.policy.tracked - multiset{victim})
    ensures r.evictSpinCnt == c.evictSpinCnt
    ensures r.log == c.log + VictimEvents(victim)
  {
    var c1 := c.(policy := c.policy.Evict(victim), log := c.log + [EvictReturned(victim), Notified(victim)]);
    c1.(content := c1.content - {victim}, log := c1.log + [ContentRemoved(victim)])
  }

  /** The `for (;;)` loop, given the policy's trace as its two parts:
      `spins` self-conflicts, then the removal of `victim`. */
  function SpinThenEvict<K(==), V>(c: Cache<K, V>, key: K, value: V, spins: nat, victim: K): (r: Cache<K, V>)
    requires key in c.policy.tracked && victim in c.policy.tracked && victim != key
    ensures r.content == c.content - {victim}
    ensures r.policy == c.policy.(tracked := c.policy.tracked - multiset{victim})
    ensures r.evictSpinCnt == c.evictSpinCnt + spins
    ensures r.log == c.log + SpinEvents(key, value, spins) + VictimEvents(victim)
    decreases spins
  {
    if spins > 0 then
      SpinStep(c.log, key, value, spins, VictimEvents(victim));
      SpinThenEvict(SelfConflict(c, key, value), key, value, spins - 1, victim)
    else
      EvictOther(c, victim)
  }

  /** `put(key, value)` in evict-after mode. */
  function Put<K(==), V>(c: Cache<K, V>, key: K, value: V, picks: seq<K>): (r: Cache<K, V>)
    requires PolicyDecides(c, key, picks)
    ensures key in r.content && r.content[key] == Entry(key, value)
    ensures r.policy.capacity == c.policy.capacity
    ensures r.evictSpinCnt >= c.evictSpinCnt
  {
    var c1 := Register(c, key, value);
    var c2 := if EvictionRuns(c) then SpinThenEvict(c1, key, value, Spins(picks), Victim(picks)) else c1;
    c2.(content := c2.content[key := Entry(key, value)], log := c2.log + [ContentPut(key)])
  }

  /** The source's `for (;;)` loop, run on the cache right after the first
      `newEntry`. */
  method EvictLoop<K(==), V>(start: Cache<K, V>, key: K, value: V, picks: seq<K>) returns (cur: Cache<K, V>)
    requires key in start.policy.tracked
    requires IsEvictTrace(picks, key)
    requires Victim(picks) in start.policy.tracked
    ensures cur.content == start.content - {Victim(picks)}
    ensures cur.policy == start.policy.(tracked := start.policy.tracked - multiset{Victim(picks)})
    ensures cur.evictSpinCnt == start.evictSpinCnt + Spins(picks)
    ensures cur.log == start.log + SpinEvents(key, value, Spins(picks)) + VictimEvents(Victim(picks))
  {
    cur := start;
    var i := 0;
    while true
      invariant 0 <= i <= Spins(picks) < |picks|
      invariant cur.content == start.content
      invariant cur.policy == start.policy
      invariant cur.evictSpinCnt == start.evictSpinCnt + i
      invariant cur.log == start.log + SpinEvents(key, value, i)
      decreases Spins(picks) - i
    {
      var k := picks[i];
      cur := cur.(policy := cur.policy.Evict(k), log := cur.log + [EvictReturned(k), Notified(k)]);
      if k == key {
        SpinEventsSnoc(key, value, i);
        cur := Register(cur, key, value).(evictSpinCnt := cur.evictSpinCnt + 1);
        i := i + 1;
        continue;
      }
      cur := cur.(content := cur.content - {k}, log := cur.log + [ContentRemoved(k)]);
      assert i == Spins(picks) && k == Victim(picks);
      break;
    }
  }

  /** The same `put`, written as the source's statements. */
  method PutLoop<K(==), V>(c: Cache<K, V>, key: K, value: V, picks: seq<K>) returns (r: Cache<K, V>)
    requires PolicyDecides(c, key, picks)
    ensures r == Put(c, key, value, picks)
  {
    var cur := Register(c, key, value);
    if EvictionRuns(c) {
      ghost var spun := SpinThenEvict(cur, key, value, Spins(picks), Victim(picks));
      cur := EvictLoop(cur, key, value, picks);
      assert cur == spun;
    }
    r := cur.(content := cur.content[key := Entry(key, value)], log := cur.log + [ContentPut(key)]);
  }

  /** The result of a lookup: `None` stands for Java's `null` on a miss. */
  datatype Option<T> = None | Some(value: T)

  /** `get(key)`: the stored value on a hit (after telling the policy), None on a miss. */
  function Get<K(==), V>(c: Cache<K, V>, key: K): (r: (Option<V>, Cache<K, V>))
    ensures r.0.Some? <==> key in c.content
    ensures key in c.content ==> r.0.value == c.content[key].value
    ensures r.1.content == c.content && r.1.policy == c.policy && r.1.evictSpinCnt == c.evictSpinCnt
    ensures r.1.log == c.log + (if key in c.content then [Hit(key)] else [])
  {
    if key in c.content then
      (Some(c.content[key].value), c.(log := c.log + [Hit(key)]))
    else
      (None, c)
  }

  /** `remove(key)`: the policy forgets the entry if there is one; the map
      removal is issued in every case. No listener is told. */
  function Remove<K(==), V>(c: Cache<K, V>, key: K): (r: Cache<K, V>)
    ensures key !in r.content
    ensures r.content.Keys == c.content.Keys - {key}
    ensures forall k :: k in r.content ==> r.content[k] == c.content[k]
    ensures key in c.content ==> r.policy.tracked == c.policy.tracked - multiset{key}
    ensures key !in c.content ==> r.policy == c.policy
    ensures r.policy.capacity == c.policy.capacity && r.evictSpinCnt == c.evictSpinCnt
    ensures Notifications(r.log) == Notifications(c.log)
  {
    var c1 := if key in c.content then
                c.(policy := c.policy.Remove(key), log := c.log + [PolicyRemoved(key)])
              else c;
    var r := c1.(content := c1.content - {key}, log := c1.log + [ContentRemoved(key)]);
    NotificationsAppend(c.log, [PolicyRemoved(key)]);
    NotificationsAppend(c1.log, [ContentRemoved(key)]);
    r
  }

  /** `getCapacity()`: delegated to the policy. */
  function GetCapacity<K(==), V>(c: Cache<K, V>): (r: int)
    ensures r == c.policy.capacity
  {
    c.policy.capacity
  }

  /** `close()`: the policy is told the final size of the map. */
  function Close<K(==), V>(c: Cache<K, V>): (r: Cache<K, V>)
    ensures r.content == c.content && r.policy == c.policy && r.evictSpinCnt == c.evictSpinCnt
    ensures |r.log| == |c.log| + 1 && r.log[..|c.log|] == c.log && r.log[|c.log|] == Closed(|c.content|)
  {
    c.(log := c.log + [Closed(|c.content|)])
  }
}

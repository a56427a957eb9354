/**
 The eviction policy as the cache sees it.

 A concrete policy (LRU, LFU, ...) keeps its own ranking structure over the
 entries it has created. The cache never inspects that ranking: it only asks
 the policy to register a new entry, to record a hit, to hand back an entry
 to evict, to forget an entry, and to close. This module keeps exactly what
 the cache relies on: the fixed capacity and the multiset of keys whose
 entries the policy currently tracks (a key may be tracked more than once,
 because `newEntry` is called again for a key that is already resident).
 Which tracked entry `evict` returns is the policy's decision and is supplied
 from outside (see `EvaluationCache.Put`).
 */
module EvictionPolicy {

  /** A cache entry: the key and the value; the policy-private bookkeeping
      lives in the policy's ranking and is abstracted away. */
  datatype Entry<K, V> = Entry(key: K, value: V)

  /** A policy for keys `K` and values `V`. Only the keys matter to what
      the cache relies on; the values live in the entries. */
  datatype Policy<K(==), V> = Policy(capacity: int, tracked: multiset<K>)
  {
    /** `newEntry(key, value)`: the policy creates and ranks one more entry. */
    function NewEntry(key: K, value: V): Policy<K, V>
    {
      this.(tracked := tracked + multiset{key})
    }

    /** `evict()` returning an entry for `key`: that entry leaves the ranking. */
    function Evict(key: K): Policy<K, V>
      requires key in tracked
    {
      this.(tracked := tracked - multiset{key})
    }

    /** `remove(entry)`: explicit removal, not driven by capacity. */
    function Remove(key: K): Policy<K, V>
    {
      this.(tracked := tracked - multiset{key})
    }
  }

  /** A freshly constructed policy tracks nothing. */
  function Fresh<K(==), V>(capacity: int): Policy<K, V>
  {
    Policy(capacity, multiset{})
  }

  /** A self-conflict leaves the policy as it was: the entry it handed back
      for `key` is replaced by a new one for the same key. */
  lemma EvictThenRegister<K, V>(p: Policy<K, V>, key: K, value: V)
    requires key in p.tracked
    ensures p.Evict(key).NewEntry(key, value) == p
  {
    assert p.tracked - multiset{key} + multiset{key} == p.tracked;
  }
}

# EvaluationCache: a verified model of the reference eviction cache

This project models the reference cache of the cache2k eviction benchmarks,
`EvaluationCache`. It is a single-threaded map from keys to entries. Every
eviction decision goes to a pluggable eviction policy. The cache enforces
capacity on `put`, reports every entry the policy hands back to the eviction
listeners, and counts self-conflicts in `evictSpinCnt`. A self-conflict is an
`evict()` call that returns the entry for the key being inserted.

## How the model is built

- `EvictionPolicy` (eviction_policy.dfy) abstracts the policy to its fixed
  capacity and the multiset of keys whose entries it tracks. `newEntry` adds
  one occurrence. `evict()` returning a key and `remove(entry)` take one away.
  `recordHit` reorders the policy's ranking and leaves the multiset alone.
- Concrete policies are not modelled. What `evict()` returns during one
  `put` is an input to `Put`: `picks`, the keys of the returned entries, in
  order. When eviction runs, `Put` requires (`PolicyDecides`) that `picks`
  is a complete trace (`IsEvictTrace`). That means the inserted key once per
  self-conflict, then one other key the policy tracks, the victim. A policy
  that only ever returns the inserted key has no such trace. The source's
  `for (;;)` loop does not end for it.
- `CacheEvents` (cache_events.dfy) holds the cache's history as an event log.
  It records policy calls, listener notifications (one `Notified(k)` stands
  for `evicted(k)` sent to every registered listener), and map mutations.
  This makes ordering properties statable.
- `EvaluationCache` (evaluation_cache.dfy) defines the operations as pure
  functions over an immutable `Cache` value. `put` also appears as a method
  that follows the source's loop (`PutLoop`, `EvictLoop`), proved equal to
  the function.
- `CacheProperties` (cache_properties.dfy) holds the lemmas. `Scenarios`
  (scenarios.dfy) holds concrete runs with integer keys.

Behaviour of the code a reader may not expect:

- The code tests `content.size() >= capacity` once, before storing the new
  entry. It then asks the policy until `evict()` returns one key other than
  the inserted one, and removes that key from the map. So a `put` that
  updates a resident key at capacity still evicts another key, and when that
  victim is resident the size drops by one (`PutAtCapacity`,
  `PutAtCapacitySize`, `PutTwice`).
- A `put` into an empty cache of capacity 1 does not evict at all
  (`FirstPutNeverEvicts`). A self-conflict needs the map to be full already
  (`SelfConflictScenario`).
- A self-conflict notifies the listeners of the inserted key too. Only the
  final victim is removed from the map.

Two consequences of the code are proved rather than assumed:

- `newEntry` is called even when the key is resident, and the superseded
  entry is never withdrawn from the policy (`PutResidentDuplicatesEntry`).
  If the policy later evicts such a stale entry, `content.remove` finds
  nothing to remove and the map can exceed capacity (`StaleEntrySetup`,
  `StaleEntryOverflow`). The size bound therefore holds when the evicted key
  is resident (`PutKeepsBound`). This is guaranteed while the policy tracks
  exactly the resident keys (`Coherent`). That invariant is kept by `get`,
  `remove` and `put` of an absent key, so the bound holds for callers that
  only `put` keys that are absent; this model does not claim that every
  caller behaves that way.
- When every resident key is the inserted key and eviction runs, a coherent
  policy can only hand back the inserted key. The loop then never ends
  (`OnlyInsertedKeyTrackedSpinsForever`). Examples are updating the only key
  at capacity 1, or any put at capacity 0.

## Model

| member | source | states |
|---|---|---|
| `EvaluationCache.Create` | variants/src/main/java/org/cache2k/benchmark/eviction/EvaluationCache.java:39-46 | a new cache has an empty map, a zero spin counter and an empty history, and owns the given policy |
| `EvaluationCache.TraceShape` | variants/src/main/java/org/cache2k/benchmark/eviction/EvaluationCache.java:57-66 | the `evict()` results of one put are the inserted key once per self-conflict (`continue`), followed by the one other key that ends the loop (`break`) |
| `EvaluationCache.TraceOf` | variants/src/main/java/org/cache2k/benchmark/eviction/EvaluationCache.java:57-66 | conversely, any number of self-conflicts followed by a different key is a sequence the loop consumes completely, with that key as victim |
| `EvaluationCache.Register` | variants/src/main/java/org/cache2k/benchmark/eviction/EvaluationCache.java:55 | `newEntry(key, value)` adds exactly one occurrence of the key to what the policy tracks and leaves the map, the counter and the capacity alone; it is logged as a registration |
| `EvaluationCache.SelfConflict` | variants/src/main/java/org/cache2k/benchmark/eviction/EvaluationCache.java:58-63 | a self-conflict leaves the map and the policy's tracked keys as they were, counts one spin, and reports the returned entry to the listeners before registering a new one |
| `EvaluationCache.EvictOther` | variants/src/main/java/org/cache2k/benchmark/eviction/EvaluationCache.java:58-66 | the eviction that ends the loop removes exactly the victim from the map and one occurrence of it from the policy, after notifying the listeners, and does not count a spin |
| `EvaluationCache.SpinThenEvict` | variants/src/main/java/org/cache2k/benchmark/eviction/EvaluationCache.java:57-67 | over `spins` self-conflicts and then the victim, the loop removes exactly the victim from the map and one occurrence of it from the policy; it adds the number of self-conflicts to the counter; it logs one evict-notify-register triple per self-conflict, then evict-notify-remove for the victim |
| `EvaluationCache.Put` | variants/src/main/java/org/cache2k/benchmark/eviction/EvaluationCache.java:48-70 | after `put(k, v)` the map holds `k` with the entry for `v`, even after self-conflicts; capacity is unchanged; the spin counter never decreases |
| `EvaluationCache.EvictLoop` | variants/src/main/java/org/cache2k/benchmark/eviction/EvaluationCache.java:57-67 | the source's `for (;;)` loop, reading the `evict()` results one by one with `continue` on a self-conflict and `break` after the first other key, ends with the victim gone from the map and the policy, the counter raised by the number of self-conflicts, and the same events as `SpinThenEvict` |
| `EvaluationCache.PutLoop` | variants/src/main/java/org/cache2k/benchmark/eviction/EvaluationCache.java:55-69 | the statement-by-statement `put` equals the functional `Put` on every input |
| `EvaluationCache.Get` | variants/src/main/java/org/cache2k/benchmark/eviction/EvaluationCache.java:73-80 | `get` hits exactly when the key is resident and then returns the stored value; the map, policy and counter are unchanged; `recordHit` is logged only on a hit |
| `EvaluationCache.Remove` | variants/src/main/java/org/cache2k/benchmark/eviction/EvaluationCache.java:83-89 | after `remove(k)`, `k` is absent and every other key keeps its entry; the policy forgets one entry for `k` only if `k` was resident; no listener is notified |
| `EvaluationCache.GetCapacity` | variants/src/main/java/org/cache2k/benchmark/eviction/EvaluationCache.java:91-94 | `getCapacity()` answers the policy's capacity, the bound `put` compares the map size against; `CapacityIsConstant` shows no operation changes it |
| `EvaluationCache.Close` | variants/src/main/java/org/cache2k/benchmark/eviction/EvaluationCache.java:97-99 | `close` hands the policy the final map size and changes nothing else |
| `EvictionPolicy.EvictThenRegister` | variants/src/main/java/org/cache2k/benchmark/eviction/EvaluationCache.java:58-62 | a self-conflict (evict the key, then `newEntry` for it again) leaves the policy's tracked multiset as it was |
| `CacheEvents.SpinEventsCounts` | variants/src/main/java/org/cache2k/benchmark/eviction/EvaluationCache.java:58-63 | `n` self-conflicts notify the listeners of the inserted key `n` times and re-register it `n` times |
| `CacheEvents.PutEventsCounts` | variants/src/main/java/org/cache2k/benchmark/eviction/EvaluationCache.java:55-69 | one put notifies the listeners of the self-conflicted key once per spin and then of the victim, or of nobody without eviction; it registers the key one more time than it spun |
| `CacheEvents.SpinEventsOrdered` | variants/src/main/java/org/cache2k/benchmark/eviction/EvaluationCache.java:58-63 | during self-conflicts every entry `evict()` returns is reported to the listeners immediately |
| `CacheEvents.PutEventsOrdered` | variants/src/main/java/org/cache2k/benchmark/eviction/EvaluationCache.java:57-66 | in one put, every `evict()` result is followed immediately by its notification, and the victim's map removal comes right after its notification |
| `CacheProperties.PutEvicting` | variants/src/main/java/org/cache2k/benchmark/eviction/EvaluationCache.java:55-69 | at capacity, the resulting map is the old map without the victim, plus the new entry; the policy gains the key and loses the victim; the counter grows by the number of self-conflicts |
| `CacheProperties.PutEvictingLog` | variants/src/main/java/org/cache2k/benchmark/eviction/EvaluationCache.java:55-69 | at capacity, the history grows by exactly one put's events: registration, self-conflicts, victim eviction, map store |
| `CacheProperties.PutQuiet` | variants/src/main/java/org/cache2k/benchmark/eviction/EvaluationCache.java:55-56 | below capacity, the policy is never asked to evict: the key is registered and stored and nothing else happens |
| `CacheProperties.PutShape` | variants/src/main/java/org/cache2k/benchmark/eviction/EvaluationCache.java:55-69 | in both cases the history grows by exactly the events of one put |
| `CacheProperties.GetAfterPut` | variants/src/main/java/org/cache2k/benchmark/eviction/EvaluationCache.java:55-80 | right after `put(k, v)`, `get(k)` returns `v`, whatever the policy did |
| `CacheProperties.PutBelowCapacity` | variants/src/main/java/org/cache2k/benchmark/eviction/EvaluationCache.java:55-69 | below capacity nothing is evicted or notified; only `k` changes; the size grows by one exactly when `k` was absent |
| `CacheProperties.PutAtCapacity` | variants/src/main/java/org/cache2k/benchmark/eviction/EvaluationCache.java:56-69 | at capacity exactly one key other than `k` is evicted, even when `k` was resident; every other key keeps its entry; the counter grows by the number of self-conflicts |
| `CacheProperties.PutAtCapacitySize` | variants/src/main/java/org/cache2k/benchmark/eviction/EvaluationCache.java:56-69 | at capacity the size grows by one for a new key and drops by one for a resident victim, so updating a resident key shrinks the map when the victim is resident |
| `CacheProperties.PutNotifications` | variants/src/main/java/org/cache2k/benchmark/eviction/EvaluationCache.java:57-66 | the listeners hear exactly the `evict()` results, in order and self-conflicts included, which is one more than the counter grew by; `newEntry` is re-issued once per self-conflict; without eviction nobody is notified |
| `CacheProperties.PutEventOrder` | variants/src/main/java/org/cache2k/benchmark/eviction/EvaluationCache.java:55-69 | a put starts with `newEntry`, notifies each eviction before any map removal, and stores the new entry last |
| `CacheProperties.PutKeepsBound` | variants/src/main/java/org/cache2k/benchmark/eviction/EvaluationCache.java:56-69 | `size <= capacity` is preserved by a put whose evicted key (when the inserted key is new) is resident |
| `CacheProperties.PutFreshKeepsCoherence` | variants/src/main/java/org/cache2k/benchmark/eviction/EvaluationCache.java:55-69 | putting an absent key keeps the policy tracking exactly the resident keys, and keeps the size bound |
| `CacheProperties.PutResidentDuplicatesEntry` | variants/src/main/java/org/cache2k/benchmark/eviction/EvaluationCache.java:55-69 | putting a resident key leaves the policy tracking that key twice, so the policy and the map disagree |
| `CacheProperties.OnlyInsertedKeyTrackedSpinsForever` | variants/src/main/java/org/cache2k/benchmark/eviction/EvaluationCache.java:56-64 | if eviction runs while the inserted key is the only resident key, no legal policy decision ends the loop |
| `CacheProperties.PutTwice` | variants/src/main/java/org/cache2k/benchmark/eviction/EvaluationCache.java:55-69 | two puts of one key leave its second value; the second keeps the size only below capacity, and at capacity it shrinks the map by one when the victim is resident |
| `CacheProperties.PutKeepsWellKeyed` | variants/src/main/java/org/cache2k/benchmark/eviction/EvaluationCache.java:55-69 | every stored entry still carries the key it is stored under after a put |
| `CacheProperties.GetRemoveKeepCoherence` | variants/src/main/java/org/cache2k/benchmark/eviction/EvaluationCache.java:73-89 | `get` and `remove` keep the policy tracking exactly the resident keys |
| `CacheProperties.RemoveUndoesPut` | variants/src/main/java/org/cache2k/benchmark/eviction/EvaluationCache.java:83-89 | removing a key just put below capacity restores the previous map and policy |
| `CacheProperties.CapacityIsConstant` | variants/src/main/java/org/cache2k/benchmark/eviction/EvaluationCache.java:91-94 | no operation changes what `getCapacity()` returns |
| `CacheProperties.CreateIsCoherent` | variants/src/main/java/org/cache2k/benchmark/eviction/EvaluationCache.java:39-46 | a new cache over a fresh policy satisfies the invariants every run starts from |
| `Scenarios.LruFill` | variants/src/main/java/org/cache2k/benchmark/eviction/EvaluationCache.java:55-69 | capacity 2, puts of A and B: both resident, nobody notified |
| `Scenarios.LruRead` | variants/src/main/java/org/cache2k/benchmark/eviction/EvaluationCache.java:73-80 | a read of resident A hits, returns its value and notifies nobody |
| `Scenarios.LruEvict` | variants/src/main/java/org/cache2k/benchmark/eviction/EvaluationCache.java:55-69 | with the LRU choice B, a put of C leaves A and C resident, with one notification for B |
| `Scenarios.SelfConflictScenario` | variants/src/main/java/org/cache2k/benchmark/eviction/EvaluationCache.java:55-69 | capacity 1 with B resident, and a policy that first returns A itself: one spin, notifications A then B, only A left |
| `Scenarios.FirstPutNeverEvicts` | variants/src/main/java/org/cache2k/benchmark/eviction/EvaluationCache.java:55-56 | the first put into an empty cache of capacity 1 runs no eviction |
| `Scenarios.StaleEntrySetup` | variants/src/main/java/org/cache2k/benchmark/eviction/EvaluationCache.java:55-69 | putting 1, 1 again and 2 at capacity 2 leaves the policy tracking key 1 twice |
| `Scenarios.StaleEntryOverflow` | variants/src/main/java/org/cache2k/benchmark/eviction/EvaluationCache.java:56-69 | evicting the stale entry for 1 twice leaves three keys resident at capacity 2 |

## Left out

- `toString` (EvaluationCache.java:101-109): report formatting only.
- The evict-before branch (EvaluationCache.java:50-54): dead code, because `evictAfter` is the constant `true`.
- Concrete eviction policies and their ranking order: not part of this model. Their decisions enter as `picks`. Tie-breaking and determinism across runs are therefore not modelled.
- The listener list inherited from `BenchmarkCache`: not part of this model. One `Notified(k)` event stands for the broadcast to every registered listener, in registration order.
- `HashMap` internals: the map is a Dafny `map`.
- `evictSpinCnt` is a Java `long`. It is modelled as an unbounded `nat`, because 2^63 spins are out of reach for any run.
- Java `null` values: `get` returns `None` on a miss. A stored `null` value is just another `V`, so the model tells apart a hit on `null` and a miss, which the source's callers cannot.
- Validation of the capacity at policy construction: it happens in policy code that is not part of this model. Capacity is any `int`.
- The third-party cache adapters, `BenchmarkCache`, `Cache2kFactory` and `EvictionComparisonBenchmark`: these are integration code around the cache.
- CacheProperties.PutKeepsBound: requires the evicted key to be resident when the inserted key is new. Without that condition the bound does not hold; `StaleEntryOverflow` shows a counterexample.

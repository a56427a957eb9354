/**
 The observable history of one cache: every call the cache makes on its
 policy, every eviction notification to the listeners, and every change of
 the content map, in the order they happen.
 */
module CacheEvents {

  datatype Event<K, V> =
    | Registered(key: K, value: V)   // policy.newEntry(key, value)
    | Hit(key: K)                    // policy.recordHit(entry)
    | EvictReturned(key: K)          // policy.evict() returned an entry for key
    | Notified(key: K)               // every listener got evicted(key)
    | PolicyRemoved(key: K)          // policy.remove(entry)
    | ContentRemoved(key: K)         // content.remove(key)
    | ContentPut(key: K)             // content.put(key, entry)
    | Closed(size: nat)              // policy.close(size)

  /** The keys reported to the eviction listeners, in order. */
  function Notifications<K, V>(log: seq<Event<K, V>>): seq<K>
  {
    if |log| == 0 then []
    else
      var last := log[|log| - 1];
      Notifications(log[..|log| - 1]) + (if last.Notified? then [last.key] else [])
  }

  /** The keys for which the policy was asked to create an entry, in order. */
  function Registrations<K, V>(log: seq<Event<K, V>>): seq<K>
  {
    if |log| == 0 then []
    else
      var last := log[|log| - 1];
      Registrations(log[..|log| - 1]) + (if last.Registered? then [last.key] else [])
  }

  /** The events of `n` self-conflicts while inserting `key`: the policy
      hands back the entry just created, the listeners hear of it, and the
      key is registered again. */
  function SpinEvents<K, V>(key: K, value: V, n: nat): seq<Event<K, V>>
  {
    if n == 0 then []
    else [EvictReturned(key), Notified(key), Registered(key, value)] + SpinEvents(key, value, n - 1)
  }

  /** The events of the one eviction that ends the loop. */
  function VictimEvents<K, V>(victim: K): seq<Event<K, V>>
  {
    [EvictReturned(victim), Notified(victim), ContentRemoved(victim)]
  }

  lemma {:induction false} NotificationsAppend<K, V>(a: seq<Event<K, V>>, b: seq<Event<K, V>>)
    ensures Notifications(a + b) == Notifications(a) + Notifications(b)
    decreases |b|
  {
    if |b| == 0 {
      assert a + b == a;
    } else {
      var b' := b[..|b| - 1];
      assert (a + b)[..|a + b| - 1] == a + b';
      NotificationsAppend(a, b');
    }
  }

  lemma {:induction false} RegistrationsAppend<K, V>(a: seq<Event<K, V>>, b: seq<Event<K, V>>)
    ensures Registrations(a + b) == Registrations(a) + Registrations(b)
    decreases |b|
  {
    if |b| == 0 {
      assert a + b == a;
    } else {
      var b' := b[..|b| - 1];
      assert (a + b)[..|a + b| - 1] == a + b';
      RegistrationsAppend(a, b');
    }
  }

  lemma LogOfOne<K, V>(a: Event<K, V>)
    ensures Notifications([a]) == (if a.Notified? then [a.key] else [])
    ensures Registrations([a]) == (if a.Registered? then [a.key] else [])
  {
    var e: seq<Event<K, V>> := [];
    assert [a][..0] == e;
    assert Notifications(e) == [] && Registrations(e) == [];
  }

  lemma LogOfThree<K, V>(a: Event<K, V>, b: Event<K, V>, c: Event<K, V>)
    ensures Notifications([a, b, c]) ==
              (if a.Notified? then [a.key] else []) + (if b.Notified? then [b.key] else [])
              + (if c.Notified? then [c.key] else [])
    ensures Registrations([a, b, c]) ==
              (if a.Registered? then [a.key] else []) + (if b.Registered? then [b.key] else [])
              + (if c.Registered? then [c.key] else [])
  {
    var e: seq<Event<K, V>> := [];
    assert [a, b, c][..2] == [a, b];
    assert [a, b][..1] == [a];
    assert [a][..0] == e;
    assert Notifications(e) == [] && Registrations(e) == [];
    assert Notifications([a]) == (if a.Notified? then [a.key] else []);
    assert Registrations([a]) == (if a.Registered? then [a.key] else []);
  }

  /** The spin events can equally be built by appending one triple per
      self-conflict, which is how the loop produces them. */
  lemma {:induction false} SpinEventsSnoc<K, V>(key: K, value: V, n: nat)
    ensures SpinEvents(key, value, n) + [EvictReturned(key), Notified(key), Registered(key, value)]
            == SpinEvents(key, value, n + 1)
  {
    if n > 0 {
      SpinEventsSnoc(key, value, n - 1);
    }
  }

  /** One self-conflict's events, appended to a log, start the spin events
      that follow. */
  lemma SpinStep<K, V>(log: seq<Event<K, V>>, key: K, value: V, n: nat, tail: seq<Event<K, V>>)
    requires n > 0
    ensures log + [EvictReturned(key), Notified(key), Registered(key, value)] + SpinEvents(key, value, n - 1) + tail
            == log + SpinEvents(key, value, n) + tail
  {
    assert SpinEvents(key, value, n)
           == [EvictReturned(key), Notified(key), Registered(key, value)] + SpinEvents(key, value, n - 1);
  }

  /** One self-conflict notifies the listeners of the key once and
      registers it once. */
  lemma SpinTriple<K, V>(key: K, value: V)
    ensures Notifications([EvictReturned(key), Notified(key), Registered(key, value)]) == [key]
    ensures Registrations([EvictReturned(key), Notified(key), Registered(key, value)]) == [key]
  {
    LogOfThree(EvictReturned(key), Notified(key), Registered(key, value));
  }

  /** `n` self-conflicts notify the listeners of the inserting key `n` times
      and register it `n` more times. */
  lemma {:induction false} SpinEventsCounts<K, V>(key: K, value: V, n: nat)
    ensures Notifications(SpinEvents(key, value, n)) == seq(n, _ => key)
    ensures Registrations(SpinEvents(key, value, n)) == seq(n, _ => key)
  {
    if n > 0 {
      var head: seq<Event<K, V>> := [EvictReturned(key), Notified(key), Registered(key, value)];
      var rest := SpinEvents(key, value, n - 1);
      assert SpinEvents(key, value, n) == head + rest;
      SpinEventsCounts(key, value, n - 1);
      SpinTriple(key, value);
      NotificationsAppend(head, rest);
      RegistrationsAppend(head, rest);
      assert [key] + seq(n - 1, _ => key) == seq(n, _ => key);
    }
  }

  /** The events of one `put`: registration, then (when eviction runs)
      the self-conflicts and the victim, then the map store. */
  function PutEvents<K, V>(key: K, value: V, evicting: bool, spins: nat, victim: K): seq<Event<K, V>>
  {
    [Registered(key, value)]
      + (if evicting then SpinEvents(key, value, spins) + VictimEvents(victim) else [])
      + [ContentPut(key)]
  }

  /** Every `evict()` result is immediately followed by its notification,
      every notification immediately follows an `evict()` result for the same
      key, and a map removal comes right after the notification of its key. */
  ghost predicate NotifiedBeforeRemoved<K, V>(e: seq<Event<K, V>>)
  {
    && (forall i :: 0 <= i < |e| && e[i].EvictReturned? ==> i + 1 < |e| && e[i + 1] == Notified(e[i].key))
    && (forall i :: 0 <= i < |e| && e[i].Notified? ==> 0 < i && e[i - 1] == EvictReturned(e[i].key))
    && (forall i :: 0 <= i < |e| && e[i].ContentRemoved? ==>
          1 < i && e[i - 1] == Notified(e[i].key) && e[i - 2] == EvictReturned(e[i].key))
  }

  /** The eviction that ends the loop notifies the listeners of the victim
      and registers nothing. */
  lemma VictimTriple<K, V>(victim: K)
    ensures Notifications(VictimEvents<K, V>(victim)) == [victim]
    ensures Registrations(VictimEvents<K, V>(victim)) == []
  {
    LogOfThree<K, V>(EvictReturned(victim), Notified(victim), ContentRemoved(victim));
  }

  /** Who the listeners hear of during one `put`. */
  lemma PutEventsNotified<K, V>(key: K, value: V, evicting: bool, spins: nat, victim: K)
    ensures Notifications(PutEvents(key, value, evicting, spins, victim))
            == (if evicting then seq(spins, _ => key) + [victim] else [])
  {
    var reg: seq<Event<K, V>> := [Registered(key, value)];
    var put: seq<Event<K, V>> := [ContentPut(key)];
    var mid: seq<Event<K, V>> := if evicting then SpinEvents(key, value, spins) + VictimEvents(victim) else [];
    LogOfOne(Registered(key, value));
    LogOfOne<K, V>(ContentPut(key));
    if evicting {
      SpinEventsCounts(key, value, spins);
      VictimTriple<K, V>(victim);
      NotificationsAppend(SpinEvents(key, value, spins), VictimEvents(victim));
    }
    NotificationsAppend(reg, mid);
    NotificationsAppend(reg + mid, put);
  }

  /** Which keys the policy is asked to register during one `put`. */
  lemma PutEventsRegistered<K, V>(key: K, value: V, evicting: bool, spins: nat, victim: K)
    ensures Registrations(PutEvents(key, value, evicting, spins, victim))
            == seq(if evicting then spins + 1 else 1, _ => key)
  {
    var reg: seq<Event<K, V>> := [Registered(key, value)];
    var put: seq<Event<K, V>> := [ContentPut(key)];
    var mid: seq<Event<K, V>> := if evicting then SpinEvents(key, value, spins) + VictimEvents(victim) else [];
    LogOfOne(Registered(key, value));
    LogOfOne<K, V>(ContentPut(key));
    if evicting {
      SpinEventsCounts(key, value, spins);
      VictimTriple<K, V>(victim);
      RegistrationsAppend(SpinEvents(key, value, spins), VictimEvents(victim));
      assert [key] + seq(spins, _ => key) == seq(spins + 1, _ => key);
    } else {
      assert [key] == seq(1, _ => key);
    }
    RegistrationsAppend(reg, mid);
    RegistrationsAppend(reg + mid, put);
  }

  /** What the listeners and the policy see of one `put`: the self-conflicted
      key once per spin and then the victim are notified; the key is
      registered once more than it spun. */
  lemma PutEventsCounts<K, V>(key: K, value: V, evicting: bool, spins: nat, victim: K)
    ensures Notifications(PutEvents(key, value, evicting, spins, victim))
            == (if evicting then seq(spins, _ => key) + [victim] else [])
    ensures Registrations(PutEvents(key, value, evicting, spins, victim))
            == seq(if evicting then spins + 1 else 1, _ => key)
  {
    PutEventsNotified(key, value, evicting, spins, victim);
    PutEventsRegistered(key, value, evicting, spins, victim);
  }

  /** The same counts seen on a whole log that one `put` extended. */
  lemma PutEventsExtend<K, V>(log: seq<Event<K, V>>, key: K, value: V, evicting: bool, spins: nat, victim: K)
    ensures Notifications(log + PutEvents(key, value, evicting, spins, victim))
            == Notifications(log) + (if evicting then seq(spins, _ => key) + [victim] else [])
    ensures Registrations(log + PutEvents(key, value, evicting, spins, victim))
            == Registrations(log) + seq(if evicting then spins + 1 else 1, _ => key)
  {
    PutEventsCounts(key, value, evicting, spins, victim);
    NotificationsAppend(log, PutEvents(key, value, evicting, spins, victim));
    RegistrationsAppend(log, PutEvents(key, value, evicting, spins, victim));
  }

  /** The ordering only ever relates neighbouring events, and a log that
      satisfies it neither ends with an `evict()` result nor starts with a
      notification or a removal: two such logs can be concatenated. */
  lemma NotifiedBeforeRemovedAppend<K, V>(a: seq<Event<K, V>>, b: seq<Event<K, V>>)
    requires NotifiedBeforeRemoved(a) && NotifiedBeforeRemoved(b)
    ensures NotifiedBeforeRemoved(a + b)
  {
    var e := a + b;
    forall i | 0 <= i < |e|
      ensures e[i].EvictReturned? ==> i + 1 < |e| && e[i + 1] == Notified(e[i].key)
      ensures e[i].Notified? ==> 0 < i && e[i - 1] == EvictReturned(e[i].key)
      ensures e[i].ContentRemoved? ==> 1 < i && e[i - 1] == Notified(e[i].key) && e[i - 2] == EvictReturned(e[i].key)
    {
      if i < |a| {
        assert e[i] == a[i];
        if a[i].EvictReturned? {
          assert e[i + 1] == a[i + 1];
        }
      } else {
        var j := i - |a|;
        assert e[i] == b[j];
        if b[j].Notified? {
          assert e[i - 1] == b[j - 1];
        } else if b[j].ContentRemoved? {
          assert e[i - 1] == b[j - 1] && e[i - 2] == b[j - 2];
        }
      }
    }
  }

  /** Each self-conflict reports its `evict()` result at once. */
  lemma {:induction false} SpinEventsOrdered<K, V>(key: K, value: V, n: nat)
    ensures NotifiedBeforeRemoved(SpinEvents(key, value, n))
  {
    if n > 0 {
      var head: seq<Event<K, V>> := [EvictReturned(key), Notified(key), Registered(key, value)];
      assert NotifiedBeforeRemoved(head);
      SpinEventsOrdered(key, value, n - 1);
      NotifiedBeforeRemovedAppend(head, SpinEvents(key, value, n - 1));
    }
  }

  /** In the events of one `put`, every `evict()` result is reported at once
      and the victim leaves the map only after its notification. */
  lemma PutEventsOrdered<K, V>(key: K, value: V, evicting: bool, spins: nat, victim: K)
    ensures NotifiedBeforeRemoved(PutEvents(key, value, evicting, spins, victim))
  {
    var reg: seq<Event<K, V>> := [Registered(key, value)];
    var put: seq<Event<K, V>> := [ContentPut(key)];
    var mid: seq<Event<K, V>> := if evicting then SpinEvents(key, value, spins) + VictimEvents(victim) else [];
    assert NotifiedBeforeRemoved(reg) && NotifiedBeforeRemoved(put);
    if evicting {
      SpinEventsOrdered(key, value, spins);
      assert NotifiedBeforeRemoved(VictimEvents<K, V>(victim));
      NotifiedBeforeRemovedAppend(SpinEvents(key, value, spins), VictimEvents(victim));
    }
    NotifiedBeforeRemovedAppend(reg, mid);
    NotifiedBeforeRemovedAppend(reg + mid, put);
  }
}

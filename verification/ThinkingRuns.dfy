/**
 * Whole runs of a thinking replay cache: any sequence of its calls, in any order, in
 * which the snapshots that are passed in come from earlier reads.
 */
module ThinkingRuns {
  import opened Eviction
  import opened ThinkingReplay

  /** The snapshot that a call is given, if it takes one. */
  predicate Takes<X>(ev: Event<X>, key: Key, snap: Snapshot) {
    (ev.Replaced? || ev.DeletedIf?) && ev.key == key && ev.snap == snap
  }

  /** A snapshot that has been loaded was handed out by an earlier read of the key. */
  ghost predicate Issued<X(!new)>(events: seq<Event<X>>, l: nat)
    requires l < |events|
  {
    (events[l].Replaced? || events[l].DeletedIf?) && events[l].snap.loaded ==>
      exists i :: 0 <= i < l && events[i].Got? && events[i].key == events[l].key && events[i].snap == events[l].snap
  }

  ghost predicate Run<C(!new), X(!new)>(kind: Kind<C, X>, states: seq<Held<C>>, events: seq<Event<X>>) {
    && |states| == |events| + 1 && states[0] == Held(map[], {})
    && (forall l {:trigger events[l]} :: 0 <= l < |events| ==> Step(kind, states[l], events[l], states[l + 1]) && Issued(events, l))
  }

  // -------------------------------------------------------------------- caps

  lemma {:induction false} EnforcedCaps<C(!new)>(size: C -> nat, was: map<Key, Entry<C>>, now: map<Key, Entry<C>>)
    requires Enforced(size, was, now)
    ensures InCaps(now, size) && DroppedOldest(now, was)
    ensures now == was || |now| + EVICT_BATCH <= |was| || now == map[]
    decreases |was|
  {
    if !InCaps(was, size) {
      var victims :| OldestBatch(Stamps(was), EVICT_BATCH, victims) && |was - victims| < |was| && Enforced(size, was - victims, now);
      BatchDropped(was, EVICT_BATCH, victims);
      EnforcedCaps(size, was - victims, now);
      DroppedTwice(now, was - victims, was);
    }
  }

  /** Writing an entry no heavier than what it replaces, into room for it. */
  lemma LightEntry<C(!new)>(size: C -> nat, was: map<Key, Entry<C>>, key: Key, e: Entry<C>)
    requires InCaps(was, size) && |was[key := e]| <= MAX_ENTRIES
    requires if key in was then size(e.content) <= size(was[key].content) else size(e.content) == 0
    ensures InCaps(was[key := e], size)
  {
    BytesSet(was, size, key, e);
    if key in was {
      BytesWithout(was, size, key);
    }
  }

  lemma WithoutOne<C(!new)>(size: C -> nat, was: map<Key, Entry<C>>, key: Key)
    requires InCaps(was, size)
    ensures InCaps(was - {key}, size)
  {
    if key in was {
      BytesWithout(was, size, key);
      assert (was - {key}).Keys == was.Keys - {key} && |(was - {key}).Keys| == |was - {key}|;
    } else {
      assert was - {key} == was;
    }
  }

  lemma {:induction false} FewerEntries<C(!new)>(size: C -> nat, was: map<Key, Entry<C>>, now: map<Key, Entry<C>>)
    requires now.Keys <= was.Keys && forall k :: k in now ==> now[k] == was[k]
    ensures Bytes(now, size) <= Bytes(was, size) && |now| <= |was|
    decreases |was|
  {
    if now.Keys == was.Keys {
      assert now == was;
    } else {
      var k :| k in was && k !in now;
      BytesWithout(was, size, k);
      assert (was - {k}).Keys == was.Keys - {k} && |(was - {k}).Keys| == |was - {k}|;
      FewerEntries(size, was - {k}, now);
    }
  }

  lemma ReserveCaps<C(!new)>(size: C -> nat, absent: map<Key, Entry<C>>, key: Key, e: Entry<C>, now: map<Key, Entry<C>>)
    requires InCaps(absent, size) && key !in absent && size(e.content) == 0 && Reserves(size, absent, key, e, now)
    ensures InCaps(now, size)
  {
    var mid :| ReservesOver(size, absent, key, e, mid) && now == mid[key := e];
    EnforcedCaps(size, absent[key := e], mid);
    RoomForOne(mid, absent, key, e);
    LightEntry(size, mid, key, e);
  }

  lemma TouchCaps<C(!new)>(size: C -> nat, was: map<Key, Entry<C>>, key: Key, now: int)
    requires InCaps(was, size) && key in was
    ensures InCaps(was[key := was[key].(timestamp := now)], size)
  {
    assert was[key := was[key].(timestamp := now)].Keys == was.Keys;
    LightEntry(size, was, key, was[key].(timestamp := now));
  }

  lemma GetCaps<C(!new), X(!new)>(kind: Kind<C, X>, s: Held<C>, key: Key, now: int, generation: Generation, snap: Snapshot, t: Held<C>)
    requires kind.size(kind.none) == 0 && InCaps(s.entries, kind.size) && Gets(kind, s, key, now, generation, snap, t)
    ensures InCaps(t.entries, kind.size)
  {
    if key in s.entries && now - s.entries[key].timestamp <= TTL {
      TouchCaps(kind.size, s.entries, key, now);
    } else {
      WithoutOne(kind.size, s.entries, key);
      ReserveCaps(kind.size, s.entries - {key}, key, Entry(kind.none, now, generation, true), t.entries);
    }
  }

  lemma DeleteIfCaps<C(!new), X(!new)>(kind: Kind<C, X>, s: Held<C>, key: Key, snap: Snapshot, now: int, generation: Generation, ok: bool, t: Held<C>)
    requires kind.size(kind.none) == 0 && InCaps(s.entries, kind.size) && DeletesIf(kind, s, key, snap, now, generation, ok, t)
    requires snap.loaded ==> snap.found
    ensures InCaps(t.entries, kind.size)
  {
    if ok {
      if snap.loaded {
        var e := Entry(kind.none, now, generation, true);
        assert s.entries[key := e].Keys == s.entries.Keys;
        LightEntry(kind.size, s.entries, key, e);
      } else {
        WithoutOne(kind.size, s.entries, key);
      }
    }
  }

  lemma StepCaps<C(!new), X(!new)>(kind: Kind<C, X>, s: Held<C>, ev: Event<X>, t: Held<C>)
    requires kind.size(kind.none) == 0 && InCaps(s.entries, kind.size) && Step(kind, s, ev, t)
    requires ev.DeletedIf? && ev.snap.loaded ==> ev.snap.found
    ensures InCaps(t.entries, kind.size)
  {
    match ev
    case Got(key, now, generation, snap) => GetCaps(kind, s, key, now, generation, snap, t);
    case Stored(key, x, now, generation) =>
      EnforcedCaps(kind.size, s.entries[key := Entry(kind.grow(kind.none, x), now, generation, false)], t.entries);
    case Replaced(key, snap, x, now, generation, ok) =>
      if ok {
        var has := if snap.loaded && key in s.entries then s.entries[key].content else kind.none;
        EnforcedCaps(kind.size, s.entries[key := Entry(kind.grow(has, x), now, generation, false)], t.entries);
      }
    case DeletedIf(key, snap, now, generation, ok) => DeleteIfCaps(kind, s, key, snap, now, generation, ok, t);
    case Deleted(key) => WithoutOne(kind.size, s.entries, key);
    case Purged(now) => FewerEntries(kind.size, s.entries, t.entries);
    case Cleared => assert Bytes(t.entries, kind.size) == 0;
  }

  /** A read hands out only snapshots that found something. */
  lemma IssuedFound<C(!new), X(!new)>(kind: Kind<C, X>, states: seq<Held<C>>, events: seq<Event<X>>, l: nat)
    requires Run(kind, states, events) && l < |events|
    ensures (events[l].Replaced? || events[l].DeletedIf?) && events[l].snap.loaded ==> events[l].snap.found
  {
    assert Issued(events, l);
    if (events[l].Replaced? || events[l].DeletedIf?) && events[l].snap.loaded {
      var i :| 0 <= i < l && events[i].Got? && events[i].key == events[l].key && events[i].snap == events[l].snap;
      assert Step(kind, states[i], events[i], states[i + 1]);
    }
  }

  /** In every state of every run both caps hold: the number of entries and the sum of their bytes. */
  lemma {:induction false} CapsHold<C(!new), X(!new)>(kind: Kind<C, X>, states: seq<Held<C>>, events: seq<Event<X>>, l: nat)
    requires kind.size(kind.none) == 0 && Run(kind, states, events) && l < |states|
    ensures InCaps(states[l].entries, kind.size)
  {
    if l == 0 {
      assert Bytes(states[0].entries, kind.size) == 0;
    } else {
      CapsHold(kind, states, events, l - 1);
      IssuedFound(kind, states, events, l - 1);
      StepCaps(kind, states[l - 1], events[l - 1], states[l]);
    }
  }

  // -------------------------------------------------------------- generations

  /** Some key alone has a generation, which has been used. */
  ghost predicate Owns<C(!new)>(s: Held<C>, key: Key, generation: Generation) {
    generation in s.used && forall k :: k in s.entries && s.entries[k].generation == generation ==> k == key
  }

  ghost predicate Has<C>(s: Held<C>, key: Key, generation: Generation) {
    key in s.entries && s.entries[key].generation == generation
  }

  ghost predicate Tidy<C(!new)>(s: Held<C>) {
    Generations(s.entries, s.used)
  }

  /** A call changes the entries of one key at most, gives it a fresh generation if any, and else only drops entries. */
  ghost predicate Evolves<C(!new)>(s: Held<C>, t: Held<C>) {
    && s.used <= t.used
    && (forall k :: k in t.entries ==> (k in s.entries && t.entries[k].generation == s.entries[k].generation) || t.entries[k].generation !in s.used)
    && (forall j, k :: j in t.entries && k in t.entries && j != k && t.entries[j].generation !in s.used ==> t.entries[k].generation in s.used)
    && (forall k :: k in t.entries ==> t.entries[k].generation in t.used)
  }

  lemma InstallEvolves<C(!new), X(!new)>(kind: Kind<C, X>, s: Held<C>, key: Key, e: Entry<C>, t: Held<C>)
    requires Tidy(s) && Installs(kind, s, key, e, t)
    ensures Evolves(s, t)
  {
    EnforcedCaps(kind.size, s.entries[key := e], t.entries);
  }

  lemma ReserveDrops<C(!new)>(size: C -> nat, absent: map<Key, Entry<C>>, key: Key, e: Entry<C>, now: map<Key, Entry<C>>)
    requires Reserves(size, absent, key, e, now)
    ensures key in now && now[key] == e && forall k :: k in now && k != key ==> k in absent && now[k] == absent[k]
  {
    var mid :| ReservesOver(size, absent, key, e, mid) && now == mid[key := e];
    EnforcedCaps(size, absent[key := e], mid);
  }

  lemma TouchEvolves<C(!new)>(s: Held<C>, key: Key, now: int)
    requires Tidy(s) && key in s.entries
    ensures Evolves(s, s.(entries := s.entries[key := s.entries[key].(timestamp := now)]))
  {
  }

  /** One key has a fresh generation, and the others are as they were or gone. */
  lemma FreshEvolves<C(!new)>(s: Held<C>, key: Key, e: Entry<C>, t: Held<C>)
    requires Tidy(s) && e.generation !in s.used && t.used == s.used + {e.generation}
    requires key in t.entries && t.entries[key] == e && forall k :: k in t.entries && k != key ==> k in s.entries && t.entries[k] == s.entries[k]
    ensures Evolves(s, t)
  {
  }

  lemma GetEvolves<C(!new), X(!new)>(kind: Kind<C, X>, s: Held<C>, key: Key, now: int, generation: Generation, snap: Snapshot, t: Held<C>)
    requires Tidy(s) && Gets(kind, s, key, now, generation, snap, t)
    ensures Evolves(s, t)
  {
    if key in s.entries && now - s.entries[key].timestamp <= TTL {
      TouchEvolves(s, key, now);
    } else {
      var e := Entry(kind.none, now, generation, true);
      ReserveDrops(kind.size, s.entries - {key}, key, e, t.entries);
      FreshEvolves(s, key, e, t);
    }
  }

  lemma StepEvolves<C(!new), X(!new)>(kind: Kind<C, X>, s: Held<C>, ev: Event<X>, t: Held<C>)
    requires Tidy(s) && Step(kind, s, ev, t)
    ensures Evolves(s, t)
  {
    match ev
    case Got(key, now, generation, snap) => GetEvolves(kind, s, key, now, generation, snap, t);
    case Stored(key, x, now, generation) => InstallEvolves(kind, s, key, Entry(kind.grow(kind.none, x), now, generation, false), t);
    case Replaced(key, snap, x, now, generation, ok) =>
      if ok {
        var has := if snap.loaded && key in s.entries then s.entries[key].content else kind.none;
        InstallEvolves(kind, s, key, Entry(kind.grow(has, x), now, generation, false), t);
      }
    case _ =>
  }

  lemma EvolvesTidy<C(!new)>(s: Held<C>, t: Held<C>, key: Key, generation: Generation)
    requires Tidy(s) && Evolves(s, t)
    ensures Tidy(t)
    ensures Owns(s, key, generation) ==> Owns(t, key, generation) && (Has(t, key, generation) ==> Has(s, key, generation))
  {
  }

  lemma {:induction false} RunTidy<C(!new), X(!new)>(kind: Kind<C, X>, states: seq<Held<C>>, events: seq<Event<X>>, l: nat)
    requires Run(kind, states, events) && l < |states|
    ensures Tidy(states[l]) && (l > 0 ==> Evolves(states[l - 1], states[l]))
  {
    if l > 0 {
      RunTidy(kind, states, events, l - 1);
      StepEvolves(kind, states[l - 1], events[l - 1], states[l]);
      EvolvesTidy(states[l - 1], states[l], "", 0);
    }
  }

  lemma {:induction false} OwnedForGood<C(!new), X(!new)>(kind: Kind<C, X>, states: seq<Held<C>>, events: seq<Event<X>>, i: nat, l: nat, key: Key, generation: Generation)
    requires Run(kind, states, events) && i <= l < |states| && Owns(states[i], key, generation)
    ensures Owns(states[l], key, generation) && (Has(states[l], key, generation) ==> Has(states[i], key, generation))
    decreases l
  {
    if i < l {
      OwnedForGood(kind, states, events, i, l - 1, key, generation);
      RunTidy(kind, states, events, l - 1);
      RunTidy(kind, states, events, l);
      EvolvesTidy(states[l - 1], states[l], key, generation);
    }
  }

  /** What a read hands out names the generation of its key. */
  lemma SnapshotOwned<C(!new), X(!new)>(kind: Kind<C, X>, states: seq<Held<C>>, events: seq<Event<X>>, i: nat)
    requires Run(kind, states, events) && i < |events| && events[i].Got?
    ensures Owns(states[i + 1], events[i].key, events[i].snap.generation) && Has(states[i + 1], events[i].key, events[i].snap.generation)
    ensures events[i].snap.loaded && events[i].snap.found
  {
    assert Step(kind, states[i], events[i], states[i + 1]);
    RunTidy(kind, states, events, i + 1);
  }

  /**
   * In every run: once the key has lost, in whatever way, the generation that a read
   * of it saw, no replace or delete with the snapshot of that read succeeds.
   */
  lemma LostSnapshotNeverSucceeds<C(!new), X(!new)>(kind: Kind<C, X>, states: seq<Held<C>>, events: seq<Event<X>>, i: nat, j: nat, l: nat)
    requires Run(kind, states, events) && i < j <= l < |events| && events[i].Got?
    requires !Has(states[j], events[i].key, events[i].snap.generation)
    requires Takes(events[l], events[i].key, events[i].snap)
    ensures !events[l].ok
  {
    var key, generation := events[i].key, events[i].snap.generation;
    SnapshotOwned(kind, states, events, i);
    OwnedForGood(kind, states, events, i + 1, j, key, generation);
    OwnedForGood(kind, states, events, j, l, key, generation);
    assert Step(kind, states[l], events[l], states[l + 1]);
  }

  /** Hence a snapshot succeeds once at most. */
  lemma SucceedsOnce<C(!new), X(!new)>(kind: Kind<C, X>, states: seq<Held<C>>, events: seq<Event<X>>, i: nat, j: nat, l: nat)
    requires Run(kind, states, events) && i < j < l < |events| && events[i].Got?
    requires Takes(events[j], events[i].key, events[i].snap) && events[j].ok
    requires Takes(events[l], events[i].key, events[i].snap)
    ensures !events[l].ok
  {
    var key, snap := events[i].key, events[i].snap;
    SnapshotOwned(kind, states, events, i);
    OwnedForGood(kind, states, events, i + 1, j, key, snap.generation);
    SuccessReplaces(kind, states[j], events[j], states[j + 1], key, snap);
    LostSnapshotNeverSucceeds(kind, states, events, i, j + 1, l);
  }

  lemma SuccessReplaces<C(!new), X(!new)>(kind: Kind<C, X>, s: Held<C>, ev: Event<X>, t: Held<C>, key: Key, snap: Snapshot)
    requires Step(kind, s, ev, t) && Takes(ev, key, snap) && ev.ok && snap.loaded && snap.generation in s.used
    ensures !Has(t, key, snap.generation)
  {
    match ev
    case Replaced(_, _, x, now, generation, _) =>
      var has := if key in s.entries then s.entries[key].content else kind.none;
      EnforcedCaps(kind.size, s.entries[key := Entry(kind.grow(has, x), now, generation, false)], t.entries);
    case DeletedIf(_, _, _, _, _) =>
  }
}

/**
 * The in-process Antigravity replay cache: an optimistic-concurrency store whose
 * snapshots name a revision and a branch.  Every public call runs under one
 * mutex, so a run of the cache is a sequence of atomic calls in any order.
 */
module AntigravityReplay {
  import opened Eviction

  type Key = string
  type Item = string

  const MAX_ENTRIES: nat := 10240
  const EVICT_BATCH: nat := 128
  /** One hour, in nanoseconds. */
  const TTL: int := 3_600_000_000_000

  /** Branch 0 stands for the empty branch name; generations are drawn from 1 up. */
  datatype Entry = Entry(items: seq<Item>, timestamp: int, revision: nat, branch: nat, deleted: bool)

  datatype Snapshot =
    Snapshot(items: seq<Item>, loaded: bool, found: bool, revision: nat, branch: nat, epoch: nat)

  const UNLOADED: Snapshot := Snapshot([], false, false, 0, 0, 0)

  /** `nonces` counts the generations drawn so far; each draw is a new name. */
  datatype Cache = Cache(entries: map<Key, Entry>, revision: nat, epoch: nat, nonces: nat)

  const EMPTY: Cache := Cache(map[], 0, 0, 0)

  function Stamps(entries: map<Key, Entry>): map<Key, int> {
    map k | k in entries :: entries[k].timestamp
  }

  function Expired(e: Entry, now: int): bool {
    now - e.timestamp > TTL
  }

  // ---------------------------------------------------------------- the calls

  function Drop(c: Cache, victims: set<Key>): Cache {
    c.(entries := c.entries - victims, epoch := c.epoch + |victims|)
  }

  /** `d` is `c` after one eviction batch, whatever the order of equal stamps. */
  ghost predicate Evicts(c: Cache, d: Cache) {
    exists victims :: OldestBatch(Stamps(c.entries), EVICT_BATCH, victims) && d == Drop(c, victims)
  }

  /** A write that took the map over its bound evicts a batch. */
  ghost predicate Settles(c: Cache, d: Cache) {
    if |c.entries| > MAX_ENTRIES then Evicts(c, d) else d == c
  }

  function Publish(c: Cache, key: Key, items: seq<Item>, now: int, branch: nat): Cache {
    c.(revision := c.revision + 1,
       entries := c.entries[key := Entry(items, now, c.revision + 1, branch, false)])
  }

  /** Publish under a branch nobody has seen. */
  function PublishFresh(c: Cache, key: Key, items: seq<Item>, now: int): Cache {
    Publish(c.(nonces := c.nonces + 1), key, items, now, c.nonces + 1)
  }

  function Tombstone(c: Cache, key: Key, now: int): Cache {
    c.(revision := c.revision + 1, nonces := c.nonces + 1,
       entries := c.entries[key := Entry([], now, c.revision + 1, c.nonces + 1, true)])
  }

  function SnapshotOf(c: Cache, key: Key): Snapshot
    requires key in c.entries
  {
    var e := c.entries[key];
    Snapshot(if e.deleted then [] else e.items, true, true, e.revision, e.branch, c.epoch)
  }

  /** A load: a live or tombstoned entry is touched; a miss is fenced by a tombstone. */
  ghost predicate Loads(c: Cache, key: Key, now: int, snap: Snapshot, d: Cache) {
    if key == "" then
      d == c && snap == UNLOADED
    else if key in c.entries && !Expired(c.entries[key], now) then
      d == c.(entries := c.entries[key := c.entries[key].(timestamp := now)]) && snap == SnapshotOf(d, key)
    else
      var missed := if key in c.entries then Drop(c, {key}) else c;
      exists room: Cache ::
        && (if |missed.entries| >= MAX_ENTRIES then Evicts(missed, room) else room == missed)
        && d == Tombstone(room, key, now)
        && snap == SnapshotOf(d, key)
  }

  /** The snapshot still names the exact entry (or, for an absent key, the exact epoch). */
  predicate Matches(c: Cache, key: Key, snap: Snapshot) {
    && (key in c.entries) == snap.found
    && (key in c.entries ==> c.entries[key].revision == snap.revision)
    && (key !in c.entries ==> c.epoch == snap.epoch)
  }

  /** The entry moved on, but only by extending the chain the snapshot saw. */
  predicate Descends(c: Cache, key: Key, snap: Snapshot, items: seq<Item>) {
    && key in c.entries
    && !c.entries[key].deleted
    && snap.branch != 0
    && c.entries[key].branch == snap.branch
    && c.entries[key].items <= items
  }

  ghost predicate Overwrites(c: Cache, key: Key, items: seq<Item>, now: int, ok: bool, d: Cache) {
    if key == "" then !ok && d == c else ok && Settles(PublishFresh(c, key, items, now), d)
  }

  ghost predicate Replaces(c: Cache, key: Key, snap: Snapshot, items: seq<Item>, now: int, ok: bool, d: Cache) {
    if key == "" then
      !ok && d == c
    else if !snap.loaded then
      Overwrites(c, key, items, now, ok, d)
    else if !Matches(c, key, snap) && !Descends(c, key, snap, items) then
      !ok && d == c
    else if snap.branch == 0 || (Matches(c, key, snap) && !(snap.items <= items)) then
      ok && Settles(PublishFresh(c, key, items, now), d)
    else
      ok && Settles(Publish(c, key, items, now, snap.branch), d)
  }

  ghost predicate Deletes(c: Cache, key: Key, now: int, d: Cache) {
    if key == "" then d == c else Settles(Tombstone(c, key, now), d)
  }

  ghost predicate DeletesIf(c: Cache, key: Key, snap: Snapshot, now: int, ok: bool, d: Cache) {
    if key == "" then
      !ok && d == c
    else if !snap.loaded then
      ok && Deletes(c, key, now, d)
    else if !Matches(c, key, snap) then
      !ok && d == c
    else
      ok && Settles(Tombstone(c, key, now), d)
  }

  function Stale(c: Cache, now: int): set<Key> {
    set k | k in c.entries && Expired(c.entries[k], now)
  }

  /** The package state and its calls, as the process keeps them. */
  class LocalCache {
    var entries: map<Key, Entry>
    var nextRevision: nat
    var evictionEpoch: nat
    var nonces: nat

    ghost function State(): Cache
      reads this
    {
      Cache(entries, nextRevision, evictionEpoch, nonces)
    }

    constructor ()
      ensures State() == EMPTY
    {
      entries, nextRevision, evictionEpoch, nonces := map[], 0, 0, 0;
    }

    method NewGeneration() returns (branch: nat)
      modifies this`nonces
      ensures nonces == old(nonces) + 1 && branch == nonces
    {
      nonces := nonces + 1;
      branch := nonces;
    }

    method EvictOldest(count: nat)
      requires count == EVICT_BATCH
      modifies this`entries, this`evictionEpoch
      ensures Evicts(old(State()), State())
    {
      var victims := SelectOldest(Stamps(entries), count);
      var left := victims;
      while left != {}
        invariant left <= victims
        invariant entries == old(entries) - (victims - left)
        invariant evictionEpoch == old(evictionEpoch) + |victims| - |left|
        decreases |left|
      {
        var k :| k in left;
        evictionEpoch := evictionEpoch + 1;
        entries := entries - {k};
        left := left - {k};
      }
      assert State() == Drop(old(State()), victims);
    }

    method SettleCapacity()
      modifies this`entries, this`evictionEpoch
      ensures Settles(old(State()), State())
    {
      if |entries| > MAX_ENTRIES {
        EvictOldest(EVICT_BATCH);
      }
    }

    method Overwrite(key: Key, items: seq<Item>, now: int) returns (ok: bool)
      modifies this
      ensures Overwrites(old(State()), key, items, now, ok, State())
    {
      if key == "" {
        return false;
      }
      nextRevision := nextRevision + 1;
      var branch := NewGeneration();
      entries := entries[key := Entry(items, now, nextRevision, branch, false)];
      assert State() == PublishFresh(old(State()), key, items, now);
      SettleCapacity();
      return true;
    }

    /** Fences a miss, making room first. */
    method ReserveAbsent(key: Key, now: int) returns (snap: Snapshot)
      modifies this
      ensures exists room: Cache ::
                && (if |old(entries)| >= MAX_ENTRIES then Evicts(old(State()), room) else room == old(State()))
                && State() == Tombstone(room, key, now)
                && snap == SnapshotOf(State(), key)
    {
      if |entries| >= MAX_ENTRIES {
        EvictOldest(EVICT_BATCH);
      }
      ghost var room := State();
      nextRevision := nextRevision + 1;
      var branch := NewGeneration();
      var entry := Entry([], now, nextRevision, branch, true);
      entries := entries[key := entry];
      assert State() == Tombstone(room, key, now);
      snap := Snapshot([], true, true, entry.revision, entry.branch, evictionEpoch);
    }

    method Load(key: Key, now: int) returns (items: seq<Item>, snap: Snapshot, hit: bool)
      modifies this
      ensures Loads(old(State()), key, now, snap, State())
      ensures hit == (snap.loaded && !State().entries[key].deleted && snap.items != [])
      ensures items == (if hit then snap.items else [])
    {
      if key == "" {
        return [], UNLOADED, false;
      }
      if key !in entries {
        snap := ReserveAbsent(key, now);
        return [], snap, false;
      }
      var entry := entries[key];
      if now - entry.timestamp > TTL {
        evictionEpoch := evictionEpoch + 1;
        entries := entries - {key};
        assert State() == Drop(old(State()), {key});
        snap := ReserveAbsent(key, now);
        return [], snap, false;
      }
      entry := entry.(timestamp := now);
      entries := entries[key := entry];
      snap := Snapshot([], true, true, entry.revision, entry.branch, evictionEpoch);
      if entry.deleted || entry.items == [] {
        return [], snap, false;
      }
      snap := snap.(items := entry.items);
      return entry.items, snap, true;
    }

    method ReplaceIfUnchanged(key: Key, snap: Snapshot, items: seq<Item>, now: int) returns (ok: bool)
      modifies this
      ensures Replaces(old(State()), key, snap, items, now, ok, State())
    {
      if key == "" {
        return false;
      }
      if !snap.loaded {
        ok := Overwrite(key, items, now);
        return ok;
      }
      ghost var was := State();
      var found := key in entries;
      var matches := found == snap.found
        && ((found && entries[key].revision == snap.revision) || (!found && snap.epoch == evictionEpoch));
      var descends := found && !entries[key].deleted && snap.branch != 0
        && entries[key].branch == snap.branch && entries[key].items <= items;
      assert matches == Matches(was, key, snap) && descends == Descends(was, key, snap, items);
      if !matches && !descends {
        return false;
      }
      var branch := snap.branch;
      var fork := branch == 0 || (matches && !(snap.items <= items));
      if fork {
        branch := NewGeneration();
      }
      nextRevision := nextRevision + 1;
      entries := entries[key := Entry(items, now, nextRevision, branch, false)];
      ghost var written := State();
      assert written == if fork then PublishFresh(was, key, items, now) else Publish(was, key, items, now, snap.branch);
      SettleCapacity();
      assert Settles(written, State());
      return true;
    }

    method DeleteRequired(key: Key, now: int)
      modifies this
      ensures Deletes(old(State()), key, now, State())
    {
      if key == "" {
        return;
      }
      nextRevision := nextRevision + 1;
      var branch := NewGeneration();
      entries := entries[key := Entry([], now, nextRevision, branch, true)];
      assert State() == Tombstone(old(State()), key, now);
      SettleCapacity();
    }

    method DeleteIfUnchanged(key: Key, snap: Snapshot, now: int) returns (ok: bool)
      modifies this
      ensures DeletesIf(old(State()), key, snap, now, ok, State())
    {
      if key == "" {
        return false;
      }
      if !snap.loaded {
        DeleteRequired(key, now);
        return true;
      }
      var found := key in entries;
      if found != snap.found || (found && entries[key].revision != snap.revision)
         || (!found && snap.epoch != evictionEpoch)
      {
        return false;
      }
      nextRevision := nextRevision + 1;
      var branch := NewGeneration();
      entries := entries[key := Entry([], now, nextRevision, branch, true)];
      assert State() == Tombstone(old(State()), key, now);
      SettleCapacity();
      return true;
    }

    method PurgeExpired(now: int)
      modifies this`entries, this`evictionEpoch
      ensures State() == Drop(old(State()), Stale(old(State()), now))
    {
      ghost var was, gone: set<Key> := State(), {};
      var todo := entries.Keys;
      while todo != {}
        invariant todo <= was.entries.Keys
        invariant forall k :: k in gone <==> k in was.entries && k !in todo && Expired(was.entries[k], now)
        invariant entries == was.entries - gone
        invariant evictionEpoch == was.epoch + |gone|
        decreases todo
      {
        var k :| k in todo;
        todo := todo - {k};
        if now - entries[k].timestamp > TTL {
          entries, evictionEpoch := entries - {k}, evictionEpoch + 1;
          gone := gone + {k};
        }
      }
      assert gone == Stale(was, now);
    }

    method Clear()
      modifies this`entries, this`evictionEpoch
      ensures State() == old(State()).(entries := map[], epoch := old(evictionEpoch) + 1)
    {
      entries := map[];
      evictionEpoch := evictionEpoch + 1;
    }
  }

  // ----------------------------------------------------------------- the runs

  /** One call and what it returned. */
  datatype Event =
    | Load(key: Key, now: int, snap: Snapshot)
    | Overwrite(key: Key, items: seq<Item>, now: int, ok: bool)
    | Replace(key: Key, snap: Snapshot, items: seq<Item>, now: int, ok: bool)
    | DeleteIf(key: Key, snap: Snapshot, now: int, ok: bool)
    | Delete(key: Key, now: int)
    | Purge(now: int)
    | Clear

  ghost predicate Step(c: Cache, ev: Event, d: Cache) {
    match ev
    case Load(key, now, snap) => Loads(c, key, now, snap, d)
    case Overwrite(key, items, now, ok) => Overwrites(c, key, items, now, ok, d)
    case Replace(key, snap, items, now, ok) => Replaces(c, key, snap, items, now, ok, d)
    case DeleteIf(key, snap, now, ok) => DeletesIf(c, key, snap, now, ok, d)
    case Delete(key, now) => Deletes(c, key, now, d)
    case Purge(now) => d == Drop(c, Stale(c, now))
    case Clear => d == c.(entries := map[], epoch := c.epoch + 1)
  }

  /**
   * Requests take their snapshots from earlier loads of the same key, or have
   * none; this is how every caller of the package uses them.
   */
  ghost predicate Honest(events: seq<Event>, l: nat)
    requires l < |events|
  {
    match events[l]
    case Replace(key, snap, _, _, _) => !snap.loaded || Issued(events, l, key, snap)
    case DeleteIf(key, snap, _, _) => !snap.loaded || Issued(events, l, key, snap)
    case _ => true
  }

  ghost predicate Issued(events: seq<Event>, l: nat, key: Key, snap: Snapshot)
    requires l <= |events|
  {
    exists i :: 0 <= i < l && events[i].Load? && events[i].key == key && events[i].snap == snap
  }

  ghost predicate Run(states: seq<Cache>, events: seq<Event>) {
    && |states| == |events| + 1
    && states[0] == EMPTY
    && (forall l :: 0 <= l < |events| ==> Step(states[l], events[l], states[l + 1]))
    && (forall l :: 0 <= l < |events| ==> Honest(events, l))
  }

  /** What ends the life of the state a snapshot of `key` saw. */
  ghost predicate Fences(c: Cache, ev: Event, d: Cache, key: Key) {
    || (ev.Delete? && ev.key == key)
    || (ev.DeleteIf? && ev.key == key && ev.ok)
    || (ev.Overwrite? && ev.key == key)
    || (ev.Replace? && ev.key == key && !ev.snap.loaded)
    || (ev.Load? && ev.key == key && key in c.entries && Expired(c.entries[key], ev.now))
    || ev.Clear?
    || (key in c.entries && key !in d.entries)
  }

  // ----------------------------------------------------- invariants of one state

  ghost predicate EntryOk(c: Cache, key: Key)
    requires key in c.entries
  {
    var e := c.entries[key];
    && 1 <= e.revision <= c.revision
    && 1 <= e.branch <= c.nonces
    && (e.deleted ==> e.items == [])
  }

  ghost predicate Distinct(c: Cache) {
    && "" !in c.entries
    && (forall k :: k in c.entries ==> EntryOk(c, k))
    && (forall j, k :: j in c.entries && k in c.entries && j != k ==>
          c.entries[j].branch != c.entries[k].branch && c.entries[j].revision != c.entries[k].revision)
  }

  ghost predicate Inv(c: Cache) {
    Distinct(c) && |c.entries| <= MAX_ENTRIES
  }

  /** What a snapshot handed out for `key` still says about the cache. */
  ghost predicate Tracks(c: Cache, key: Key, snap: Snapshot) {
    && key != "" && snap.loaded && snap.found
    && 1 <= snap.revision <= c.revision
    && 1 <= snap.branch <= c.nonces
    && (forall k :: k in c.entries && k != key ==>
          c.entries[k].branch != snap.branch && c.entries[k].revision != snap.revision)
    && (key in c.entries ==>
          var e := c.entries[key];
          && (e.branch == snap.branch ==> snap.items <= e.items && snap.revision <= e.revision)
          && (e.revision == snap.revision ==> e.branch == snap.branch && e.items == snap.items))
  }

  /** The key no longer holds the branch the snapshot saw. */
  ghost predicate Fenced(c: Cache, key: Key, snap: Snapshot) {
    key in c.entries ==> c.entries[key].branch != snap.branch
  }

  /**
   * How one call may change the entries: each survivor is as it was (its stamp
   * aside), extends its chain on the same branch under a new revision, or sits
   * on a branch drawn since.
   */
  ghost predicate Evolves(c: Cache, d: Cache) {
    && c.revision <= d.revision && c.nonces <= d.nonces
    && forall k :: k in d.entries ==>
         || (k in c.entries && d.entries[k].(timestamp := 0) == c.entries[k].(timestamp := 0))
         || (&& k in c.entries && d.entries[k].branch == c.entries[k].branch
             && c.entries[k].items <= d.entries[k].items && c.revision < d.entries[k].revision)
         || (c.nonces < d.entries[k].branch && c.revision < d.entries[k].revision)
  }

  lemma DropEvolves(c: Cache, m: Cache, victims: set<Key>)
    requires Distinct(m) && Evolves(c, m) && victims <= m.entries.Keys
    ensures Distinct(Drop(m, victims)) && Evolves(c, Drop(m, victims))
    ensures |Drop(m, victims).entries| == |m.entries| - |victims|
  {
    assert (m.entries - victims).Keys == m.entries.Keys - victims;
  }

  lemma SettlesEvolves(c: Cache, m: Cache, d: Cache)
    requires Distinct(m) && Evolves(c, m) && |m.entries| <= MAX_ENTRIES + 1 && Settles(m, d)
    ensures Inv(d) && Evolves(c, d)
  {
    if |m.entries| > MAX_ENTRIES {
      var victims :| OldestBatch(Stamps(m.entries), EVICT_BATCH, victims) && d == Drop(m, victims);
      assert Stamps(m.entries).Keys == m.entries.Keys;
      DropEvolves(c, m, victims);
    }
  }

  /** Writing one entry, on a new branch or further along its own. */
  lemma WriteEvolves(c: Cache, key: Key, e: Entry, nonces: nat)
    requires Distinct(c) && key != ""
    requires e.revision == c.revision + 1 && (e.deleted ==> e.items == [])
    requires || (nonces == c.nonces + 1 && e.branch == nonces)
             || (nonces == c.nonces && key in c.entries
                 && e.branch == c.entries[key].branch && c.entries[key].items <= e.items)
    ensures var m := Cache(c.entries[key := e], c.revision + 1, c.epoch, nonces);
            Distinct(m) && Evolves(c, m) && |m.entries| <= |c.entries| + 1
  {
    var m := Cache(c.entries[key := e], c.revision + 1, c.epoch, nonces);
    assert m.entries.Keys == c.entries.Keys + {key};
    forall k | k in m.entries
      ensures EntryOk(m, k)
    {
      assert k != key ==> EntryOk(c, k);
      assert key in c.entries ==> EntryOk(c, key);
    }
    forall j, k | j in m.entries && k in m.entries && j != k
      ensures m.entries[j].branch != m.entries[k].branch && m.entries[j].revision != m.entries[k].revision
    {
      assert j != key ==> EntryOk(c, j);
      assert k != key ==> EntryOk(c, k);
    }
  }

  lemma EvictsEvolves(c: Cache, m: Cache, d: Cache)
    requires Distinct(m) && Evolves(c, m) && Evicts(m, d)
    ensures Distinct(d) && Evolves(c, d)
    ensures |d.entries| == |m.entries| - (if EVICT_BATCH <= |m.entries| then EVICT_BATCH else |m.entries|)
  {
    var victims :| OldestBatch(Stamps(m.entries), EVICT_BATCH, victims) && d == Drop(m, victims);
    assert Stamps(m.entries).Keys == m.entries.Keys;
    DropEvolves(c, m, victims);
  }

  lemma TouchEvolves(c: Cache, key: Key, now: int, d: Cache)
    requires Inv(c) && key in c.entries
    requires d == c.(entries := c.entries[key := c.entries[key].(timestamp := now)])
    ensures Inv(d) && Evolves(c, d)
  {
    assert d.entries.Keys == c.entries.Keys;
    forall k | k in d.entries
      ensures EntryOk(d, k)
    {
      assert EntryOk(c, k);
    }
  }

  lemma EvolvesChain(c: Cache, m: Cache, d: Cache)
    requires Evolves(c, m) && Evolves(m, d)
    ensures Evolves(c, d)
  {
  }

  lemma LoadEvolves(c: Cache, key: Key, now: int, snap: Snapshot, d: Cache)
    requires Inv(c) && Loads(c, key, now, snap, d)
    ensures Inv(d) && Evolves(c, d)
    ensures snap.loaded ==> Tracks(d, key, snap)
  {
    if key == "" {
    } else if key in c.entries && !Expired(c.entries[key], now) {
      TouchEvolves(c, key, now, d);
      assert EntryOk(d, key);
    } else {
      var missed := if key in c.entries then Drop(c, {key}) else c;
      if key in c.entries {
        DropEvolves(c, c, {key});
      }
      var room: Cache :|
        && (if |missed.entries| >= MAX_ENTRIES then Evicts(missed, room) else room == missed)
        && d == Tombstone(room, key, now)
        && snap == SnapshotOf(d, key);
      if |missed.entries| >= MAX_ENTRIES {
        EvictsEvolves(c, missed, room);
      }
      WriteEvolves(room, key, d.entries[key], room.nonces + 1);
      EvolvesChain(c, room, d);
      assert EntryOk(d, key);
    }
  }

  lemma PublishSettles(c: Cache, key: Key, items: seq<Item>, now: int, d: Cache)
    requires Inv(c) && key != "" && Settles(PublishFresh(c, key, items, now), d)
    ensures Inv(d) && Evolves(c, d)
    ensures key in d.entries ==> d.entries[key].branch > c.nonces
  {
    var forked := PublishFresh(c, key, items, now);
    WriteEvolves(c, key, forked.entries[key], c.nonces + 1);
    SettlesEvolves(c, forked, d);
  }

  lemma ExtendSettles(c: Cache, key: Key, items: seq<Item>, now: int, branch: nat, d: Cache)
    requires Inv(c) && key in c.entries && c.entries[key].branch == branch && c.entries[key].items <= items
    requires Settles(Publish(c, key, items, now, branch), d)
    ensures Inv(d) && Evolves(c, d)
  {
    var longer := Publish(c, key, items, now, branch);
    WriteEvolves(c, key, longer.entries[key], c.nonces);
    SettlesEvolves(c, longer, d);
  }

  lemma ReplaceEvolves(c: Cache, key: Key, snap: Snapshot, items: seq<Item>, now: int, ok: bool, d: Cache)
    requires Inv(c) && Replaces(c, key, snap, items, now, ok, d)
    requires snap.loaded ==> Tracks(c, key, snap)
    ensures Inv(d) && Evolves(c, d)
  {
    if key == "" || !ok {
    } else if !snap.loaded || (Matches(c, key, snap) && !(snap.items <= items)) {
      PublishSettles(c, key, items, now, d);
    } else {
      ExtendSettles(c, key, items, now, snap.branch, d);
    }
  }

  lemma TombstoneEvolves(c: Cache, key: Key, now: int, d: Cache)
    requires Inv(c) && key != "" && Settles(Tombstone(c, key, now), d)
    ensures Inv(d) && Evolves(c, d)
    ensures key in d.entries ==> d.entries[key].branch > c.nonces
  {
    var t := Tombstone(c, key, now);
    WriteEvolves(c, key, t.entries[key], c.nonces + 1);
    SettlesEvolves(c, t, d);
  }

  lemma StepEvolves(c: Cache, ev: Event, d: Cache)
    requires Inv(c) && Step(c, ev, d)
    requires ev.Replace? && ev.snap.loaded ==> Tracks(c, ev.key, ev.snap)
    ensures Inv(d) && Evolves(c, d)
  {
    match ev
    case Load(key, now, snap) =>
      LoadEvolves(c, key, now, snap, d);
    case Overwrite(key, items, now, ok) =>
      ReplaceEvolves(c, key, UNLOADED, items, now, ok, d);
    case Replace(key, snap, items, now, ok) =>
      ReplaceEvolves(c, key, snap, items, now, ok, d);
    case DeleteIf(key, snap, now, ok) =>
      if d != c { TombstoneEvolves(c, key, now, d); }
    case Delete(key, now) =>
      if d != c { TombstoneEvolves(c, key, now, d); }
    case Purge(now) =>
      DropEvolves(c, c, Stale(c, now));
    case Clear =>
  }

  lemma TracksEvolves(c: Cache, d: Cache, key: Key, snap: Snapshot)
    requires Evolves(c, d) && Tracks(c, key, snap)
    ensures Tracks(d, key, snap)
    ensures Fenced(c, key, snap) ==> Fenced(d, key, snap)
  {
  }

  ghost predicate TracksAll(states: seq<Cache>, events: seq<Event>, l: nat)
    requires l < |states| && |states| == |events| + 1
  {
    forall i :: 0 <= i < l && events[i].Load? && events[i].snap.loaded ==> Tracks(states[l], events[i].key, events[i].snap)
  }

  lemma TracksAllNext(states: seq<Cache>, events: seq<Event>, l: nat)
    requires |states| == |events| + 1 && l < |events|
    requires TracksAll(states, events, l) && Evolves(states[l], states[l + 1])
    requires events[l].Load? && events[l].snap.loaded ==> Tracks(states[l + 1], events[l].key, events[l].snap)
    ensures TracksAll(states, events, l + 1)
  {
    forall i | 0 <= i < l + 1 && events[i].Load? && events[i].snap.loaded
      ensures Tracks(states[l + 1], events[i].key, events[i].snap)
    {
      if i < l {
        TracksEvolves(states[l], states[l + 1], events[i].key, events[i].snap);
      }
    }
  }

  /** One step, for a caller whose snapshot (if it brings one) is tracked. */
  lemma StepKeeps(c: Cache, ev: Event, d: Cache)
    requires Inv(c) && Step(c, ev, d)
    requires ev.Replace? && ev.snap.loaded ==> Tracks(c, ev.key, ev.snap)
    ensures Inv(d) && Evolves(c, d)
    ensures ev.Load? && ev.snap.loaded ==> Tracks(d, ev.key, ev.snap)
  {
    StepEvolves(c, ev, d);
    if ev.Load? {
      LoadEvolves(c, ev.key, ev.now, ev.snap, d);
    }
  }

  lemma HonestTracks(states: seq<Cache>, events: seq<Event>, l: nat)
    requires |states| == |events| + 1 && l < |events|
    requires TracksAll(states, events, l) && Honest(events, l)
    ensures (events[l].Replace? || events[l].DeleteIf?) && events[l].snap.loaded ==>
              Tracks(states[l], events[l].key, events[l].snap)
  {
  }

  lemma {:induction false} RunInvariant(states: seq<Cache>, events: seq<Event>, l: nat)
    requires Run(states, events) && l < |states|
    ensures Inv(states[l]) && TracksAll(states, events, l)
    ensures 0 < l ==> Evolves(states[l - 1], states[l])
  {
    if l > 0 {
      RunInvariant(states, events, l - 1);
      HonestTracks(states, events, l - 1);
      StepKeeps(states[l - 1], events[l - 1], states[l - 1 + 1]);
      TracksAllNext(states, events, l - 1);
    }
  }

  /** Between two states of a run, what a snapshot tracks at the first it tracks at the second. */
  lemma {:induction false} TracksLater(states: seq<Cache>, events: seq<Event>, i: nat, l: nat, key: Key, snap: Snapshot)
    requires Run(states, events) && i <= l < |states| && Tracks(states[i], key, snap)
    ensures Tracks(states[l], key, snap)
    ensures Fenced(states[i], key, snap) ==> Fenced(states[l], key, snap)
    decreases l - i
  {
    if i < l {
      TracksLater(states, events, i, l - 1, key, snap);
      RunInvariant(states, events, l);
      TracksEvolves(states[l - 1], states[l], key, snap);
    }
  }

  /** A fencing call takes the key off the branch the snapshot saw. */
  lemma FenceTakesHold(c: Cache, ev: Event, d: Cache, key: Key, snap: Snapshot)
    requires Inv(c) && Step(c, ev, d) && Fences(c, ev, d, key) && Tracks(c, key, snap)
    requires ev.Replace? && ev.snap.loaded ==> Tracks(c, ev.key, ev.snap)
    ensures Fenced(d, key, snap)
  {
    StepEvolves(c, ev, d);
    if (ev.Delete? || ev.DeleteIf?) && ev.key == key {
      TombstoneEvolves(c, key, ev.now, d);
    } else if (ev.Overwrite? || (ev.Replace? && !ev.snap.loaded)) && ev.key == key {
      PublishSettles(c, key, ev.items, ev.now, d);
    } else if ev.Load? && key in d.entries {
      assert ev.key == key ==> d.entries[key].branch > c.nonces;
    }
  }

  /** A snapshot handed out in a run is tracked from then on. */
  lemma IssuedTracks(states: seq<Cache>, events: seq<Event>, i: nat, l: nat)
    requires Run(states, events) && i < l < |states|
    requires events[i].Load? && events[i].snap.loaded
    ensures Tracks(states[l], events[i].key, events[i].snap)
  {
    RunInvariant(states, events, l);
  }

  lemma FenceInRun(states: seq<Cache>, events: seq<Event>, i: nat, j: nat)
    requires Run(states, events) && i < j < |events|
    requires events[i].Load? && events[i].snap.loaded
    requires Fences(states[j], events[j], states[j + 1], events[i].key)
    ensures Fenced(states[j + 1], events[i].key, events[i].snap)
  {
    IssuedTracks(states, events, i, j);
    RunInvariant(states, events, j);
    HonestTracks(states, events, j);
    FenceTakesHold(states[j], events[j], states[j + 1], events[i].key, events[i].snap);
  }

  lemma FencedFails(c: Cache, ev: Event, d: Cache, key: Key, snap: Snapshot)
    requires Step(c, ev, d) && Tracks(c, key, snap) && Fenced(c, key, snap)
    ensures ev.Replace? && ev.key == key && ev.snap == snap ==> !ev.ok
    ensures ev.DeleteIf? && ev.key == key && ev.snap == snap ==> !ev.ok
  {
    assert !Matches(c, key, snap);
  }

  // ------------------------------------------------------------- main results

  /**
   * Once its key has been tombstoned, unconditionally overwritten, evicted,
   * expired or cleared after the load, no later replace or delete with that
   * snapshot succeeds, whatever the other requests do in between.
   */
  lemma FencedSnapshotNeverSucceeds(states: seq<Cache>, events: seq<Event>, i: nat, j: nat, l: nat, key: Key, snap: Snapshot)
    requires Run(states, events) && i < j < l < |events|
    requires events[i].Load? && events[i].key == key && events[i].snap == snap && snap.loaded
    requires Fences(states[j], events[j], states[j + 1], key)
    ensures events[l].Replace? && events[l].key == key && events[l].snap == snap ==> !events[l].ok
    ensures events[l].DeleteIf? && events[l].key == key && events[l].snap == snap ==> !events[l].ok
  {
    FenceInRun(states, events, i, j);
    IssuedTracks(states, events, i, j + 1);
    TracksLater(states, events, j + 1, l, key, snap);
    FencedFails(states[l], events[l], states[l + 1], key, snap);
  }

  /** A key's item lists on one branch only ever grow at the end. */
  lemma BranchGrowsByExtension(states: seq<Cache>, events: seq<Event>, i: nat, l: nat, key: Key)
    requires Run(states, events) && i <= l < |states|
    requires key in states[i].entries && key in states[l].entries
    requires states[i].entries[key].branch == states[l].entries[key].branch
    ensures states[i].entries[key].items <= states[l].entries[key].items
    ensures states[i].entries[key].revision <= states[l].entries[key].revision
  {
    RunInvariant(states, events, i);
    assert EntryOk(states[i], key);
    TracksLater(states, events, i, l, key, SnapshotOf(states[i], key));
  }

  /**
   * The partner of the fence: a snapshot succeeds exactly while its key holds the
   * very revision it saw or, for a replace, a live chain on its branch that the
   * new items extend; a delete accepts nothing but the revision.
   */
  lemma SnapshotSucceedsExactly(states: seq<Cache>, events: seq<Event>, i: nat, l: nat)
    requires Run(states, events) && i < l < |events|
    requires events[i].Load? && events[i].snap.loaded
    requires (events[l].Replace? || events[l].DeleteIf?) && events[l].key == events[i].key && events[l].snap == events[i].snap
    ensures var c, key, snap := states[l], events[i].key, events[i].snap;
            events[l].ok <==>
              && key in c.entries && c.entries[key].branch == snap.branch
              && (|| c.entries[key].revision == snap.revision
                  || (events[l].Replace? && !c.entries[key].deleted && c.entries[key].items <= events[l].items))
  {
    IssuedTracks(states, events, i, l);
    assert Step(states[l], events[l], states[l + 1]);
  }
}

/**
 * The in-process thinking replay caches: one for Claude, which keeps a list of
 * turns per session, and one for Kimi, which keeps the last content.  They share
 * their byte accounting, their eviction and their generations, and differ in how a
 * new content joins what a session has.
 */
module ThinkingReplay {
  import opened Eviction
  import opened Wrappers

  const TTL: nat := 3600
  const MAX_ENTRIES: nat := 10240
  const EVICT_BATCH: nat := 128
  const MAX_TOTAL_BYTES: nat := 0x1000_0000

  type Key = string

  /** Generations are fresh identifiers. */
  type Generation = nat

  datatype Entry<C> = Entry(content: C, timestamp: int, generation: Generation, deleted: bool)

  datatype Snapshot = Snapshot(generation: Generation, loaded: bool, found: bool)

  /** What a cache keeps per session: nothing, how much it weighs, how it grows, and when it is in bounds. */
  datatype Kind<!C, !X> = Kind(none: C, size: C -> nat, grow: (C, X) -> C, fits: C -> bool)

  // ------------------------------------------------------------ summing bytes

  ghost function Bytes<C>(entries: map<Key, Entry<C>>, size: C -> nat): nat {
    if entries == map[] then 0
    else
      var k :| k in entries;
      size(entries[k].content) + Bytes(entries - {k}, size)
  }

  lemma {:induction false} BytesWithout<C>(entries: map<Key, Entry<C>>, size: C -> nat, k: Key)
    requires k in entries
    ensures Bytes(entries, size) == size(entries[k].content) + Bytes(entries - {k}, size)
    decreases |entries|
  {
    var j :| j in entries && Bytes(entries, size) == size(entries[j].content) + Bytes(entries - {j}, size);
    if j != k {
      BytesWithout(entries - {j}, size, k);
      BytesWithout(entries - {k}, size, j);
      assert entries - {j} - {k} == entries - {k} - {j};
    }
  }

  lemma BytesSet<C>(entries: map<Key, Entry<C>>, size: C -> nat, k: Key, e: Entry<C>)
    ensures Bytes(entries[k := e], size) == size(e.content) + Bytes(entries - {k}, size)
    ensures k !in entries ==> entries - {k} == entries
  {
    BytesWithout(entries[k := e], size, k);
    assert entries[k := e] - {k} == entries - {k};
  }

  // ----------------------------------------------------------------- eviction

  function Stamps<C>(entries: map<Key, Entry<C>>): map<Key, int> {
    map k | k in entries :: entries[k].timestamp
  }

  /** Entries have been dropped, and none that is newer than one that stayed. */
  ghost predicate DroppedOldest<C(!new)>(now: map<Key, Entry<C>>, was: map<Key, Entry<C>>) {
    && now.Keys <= was.Keys && (forall k :: k in now ==> now[k] == was[k])
    && forall v, s :: v in was && v !in now && s in now ==> was[v].timestamp <= was[s].timestamp
  }

  lemma BatchDropped<C(!new)>(was: map<Key, Entry<C>>, count: nat, victims: set<Key>)
    requires OldestBatch(Stamps(was), count, victims)
    ensures DroppedOldest(was - victims, was)
    ensures |was - victims| == if count <= |was| then |was| - count else 0
  {
    var now := was - victims;
    assert Stamps(was).Keys == was.Keys;
    assert now.Keys == was.Keys - victims;
    assert |was.Keys| == |was| && |now.Keys| == |now| && |Stamps(was).Keys| == |Stamps(was)|;
    forall v, s | v in was && v !in now && s in now
      ensures was[v].timestamp <= was[s].timestamp
    {
      assert Stamps(was)[v] <= Stamps(was)[s];
    }
  }

  ghost predicate Capped<C>(entries: map<Key, Entry<C>>, total: int) {
    |entries| <= MAX_ENTRIES && total <= MAX_TOTAL_BYTES
  }

  ghost predicate InCaps<C>(entries: map<Key, Entry<C>>, size: C -> nat) {
    Capped(entries, Bytes(entries, size))
  }

  /** What enforcing the caps may leave: batch after batch of the oldest goes, until both hold. */
  ghost predicate Enforced<C(!new)>(size: C -> nat, was: map<Key, Entry<C>>, now: map<Key, Entry<C>>)
    decreases |was|
  {
    if InCaps(was, size) then now == was
    else
      exists victims {:trigger OldestBatch(Stamps(was), EVICT_BATCH, victims)} ::
        && OldestBatch(Stamps(was), EVICT_BATCH, victims) && |was - victims| < |was|
        && Enforced(size, was - victims, now)
  }

  /** A batch more makes no difference to what may be left. */
  lemma EnforcedStep<C(!new)>(size: C -> nat, was: map<Key, Entry<C>>, victims: set<Key>)
    requires !InCaps(was, size) && was != map[] && OldestBatch(Stamps(was), EVICT_BATCH, victims)
    ensures forall now :: Enforced(size, was - victims, now) ==> Enforced(size, was, now)
  {
    BatchDropped(was, EVICT_BATCH, victims);
    assert |was| > 0;
  }

  // -------------------------------------------------------------- generations

  ghost predicate Generations<C(!new)>(entries: map<Key, Entry<C>>, used: set<Generation>) {
    && (forall k :: k in entries ==> entries[k].generation in used)
    && (forall j, k :: j in entries && k in entries && j != k ==> entries[j].generation != entries[k].generation)
  }

  ghost function Live<C>(entries: map<Key, Entry<C>>): set<Generation> {
    set k | k in entries :: entries[k].generation
  }

  ghost predicate AllFit<C(!new), X>(entries: map<Key, Entry<C>>, kind: Kind<C, X>) {
    forall k :: k in entries ==> kind.fits(entries[k].content)
  }

  /** Content that may join anything a session has. */
  ghost predicate Growable<C(!new), X(!new)>(kind: Kind<C, X>, x: X) {
    kind.fits(kind.none) && forall c {:trigger kind.grow(c, x)} :: kind.fits(c) ==> kind.fits(kind.grow(c, x))
  }

  // ------------------------------------------------------------- what calls do

  /** The entries, and the generations that have been used so far. */
  datatype Held<C> = Held(entries: map<Key, Entry<C>>, used: set<Generation>)

  datatype Event<X> =
    | Got(key: Key, now: int, generation: Generation, snap: Snapshot)
    | Stored(key: Key, x: X, now: int, generation: Generation)
    | Replaced(key: Key, snap: Snapshot, x: X, now: int, generation: Generation, ok: bool)
    | DeletedIf(key: Key, snap: Snapshot, now: int, generation: Generation, ok: bool)
    | Deleted(key: Key)
    | Purged(now: int)
    | Cleared

  /** What a snapshot must still find for its holder to go on. */
  predicate Current<C>(entries: map<Key, Entry<C>>, key: Key, snap: Snapshot) {
    (key in entries) == snap.found && (key in entries ==> entries[key].generation == snap.generation)
  }

  /** Reserving an absent key writes its tombstone, enforces the caps, and writes the tombstone again. */
  ghost predicate Reserves<C(!new)>(size: C -> nat, absent: map<Key, Entry<C>>, key: Key, e: Entry<C>, now: map<Key, Entry<C>>) {
    exists mid {:trigger ReservesOver(size, absent, key, e, mid)} :: ReservesOver(size, absent, key, e, mid) && now == mid[key := e]
  }

  ghost predicate ReservesOver<C(!new)>(size: C -> nat, absent: map<Key, Entry<C>>, key: Key, e: Entry<C>, mid: map<Key, Entry<C>>) {
    Enforced(size, absent[key := e], mid)
  }

  ghost predicate Installs<C(!new), X>(kind: Kind<C, X>, s: Held<C>, key: Key, e: Entry<C>, t: Held<C>) {
    e.generation !in s.used && t.used == s.used + {e.generation} && Enforced(kind.size, s.entries[key := e], t.entries)
  }

  ghost predicate Gets<C(!new), X>(kind: Kind<C, X>, s: Held<C>, key: Key, now: int, generation: Generation, snap: Snapshot, t: Held<C>) {
    && key in t.entries && snap == Snapshot(t.entries[key].generation, true, true)
    && if key in s.entries && now - s.entries[key].timestamp <= TTL then
         t == s.(entries := s.entries[key := s.entries[key].(timestamp := now)])
       else
         && generation !in s.used && t.used == s.used + {generation}
         && Reserves(kind.size, s.entries - {key}, key, Entry(kind.none, now, generation, true), t.entries)
  }

  ghost predicate Replaces<C(!new), X>(kind: Kind<C, X>, s: Held<C>, key: Key, snap: Snapshot, x: X, now: int, generation: Generation, ok: bool, t: Held<C>) {
    && ok == (!snap.loaded || Current(s.entries, key, snap))
    && if !ok then t == s
       else
         var has := if snap.loaded && key in s.entries then s.entries[key].content else kind.none;
         Installs(kind, s, key, Entry(kind.grow(has, x), now, generation, false), t)
  }

  ghost predicate DeletesIf<C(!new), X>(kind: Kind<C, X>, s: Held<C>, key: Key, snap: Snapshot, now: int, generation: Generation, ok: bool, t: Held<C>) {
    && ok == (!snap.loaded || Current(s.entries, key, snap))
    && if !ok then t == s
       else if !snap.loaded then t == s.(entries := s.entries - {key})
       else generation !in s.used && t == Held(s.entries[key := Entry(kind.none, now, generation, true)], s.used + {generation})
  }

  function Unexpired<C>(entries: map<Key, Entry<C>>, now: int): map<Key, Entry<C>> {
    map k | k in entries && now - entries[k].timestamp <= TTL :: entries[k]
  }

  ghost predicate Step<C(!new), X>(kind: Kind<C, X>, s: Held<C>, ev: Event<X>, t: Held<C>) {
    match ev
    case Got(key, now, generation, snap) => Gets(kind, s, key, now, generation, snap, t)
    case Stored(key, x, now, generation) => Installs(kind, s, key, Entry(kind.grow(kind.none, x), now, generation, false), t)
    case Replaced(key, snap, x, now, generation, ok) => Replaces(kind, s, key, snap, x, now, generation, ok, t)
    case DeletedIf(key, snap, now, generation, ok) => DeletesIf(kind, s, key, snap, now, generation, ok, t)
    case Deleted(key) => t == s.(entries := s.entries - {key})
    case Purged(now) => t == s.(entries := Unexpired(s.entries, now))
    case Cleared => t == s.(entries := map[])
  }

  class Cache<C(!new), X(!new)> {
    const kind: Kind<C, X>
    var entries: map<Key, Entry<C>>
    var totalBytes: int
    ghost var used: set<Generation>

    /** The running total is the sum over the entries. */
    ghost predicate Counted()
      reads this
    {
      totalBytes == Bytes(entries, kind.size)
    }

    ghost predicate Valid()
      reads this
    {
      Counted() && Generations(entries, used) && AllFit(entries, kind) && kind.size(kind.none) == 0 && kind.fits(kind.none)
    }

    ghost function Now(): Held<C>
      reads this
    {
      Held(entries, used)
    }

    /** Generations that no entry has any more. */
    ghost function Spent(): set<Generation>
      reads this
    {
      used - Live(entries)
    }

    constructor (kind: Kind<C, X>)
      requires kind.size(kind.none) == 0 && kind.fits(kind.none)
      ensures Valid() && entries == map[] && this.kind == kind
    {
      this.kind := kind;
      entries, totalBytes, used := map[], 0, {};
    }

    method Put(key: Key, e: Entry<C>)
      requires Counted()
      modifies this`entries, this`totalBytes
      ensures Counted() && entries == old(entries)[key := e]
      ensures totalBytes == old(totalBytes) + kind.size(e.content) - if key in old(entries) then kind.size(old(entries)[key].content) else 0
    {
      BytesSet(entries, kind.size, key, e);
      if key in entries {
        BytesWithout(entries, kind.size, key);
        totalBytes := totalBytes - kind.size(entries[key].content);
      }
      totalBytes := totalBytes + kind.size(e.content);
      entries := entries[key := e];
    }

    method Remove(key: Key)
      requires Counted()
      modifies this`entries, this`totalBytes
      ensures Counted() && entries == old(entries) - {key} && totalBytes <= old(totalBytes)
    {
      if key in entries {
        BytesWithout(entries, kind.size, key);
        totalBytes := totalBytes - kind.size(entries[key].content);
      } else {
        assert entries - {key} == entries;
      }
      entries := entries - {key};
    }

    method RemoveAll(victims: set<Key>)
      requires Counted()
      modifies this`entries, this`totalBytes
      ensures Counted() && entries == old(entries) - victims && totalBytes <= old(totalBytes)
    {
      ghost var was := entries;
      var left := victims;
      assert was - (victims - left) == was;
      while left != {}
        invariant left <= victims && Counted() && entries == was - (victims - left) && totalBytes <= old(totalBytes)
        decreases |left|
      {
        var k :| k in left;
        Remove(k);
        assert was - (victims - left) - {k} == was - (victims - (left - {k}));
        left := left - {k};
      }
      assert victims - left == victims;
    }

    method EvictOldest(count: nat)
      requires Counted()
      modifies this`entries, this`totalBytes
      ensures Counted() && DroppedOldest(entries, old(entries))
      ensures |entries| == if count <= |old(entries)| then |old(entries)| - count else 0
      ensures exists victims :: OldestBatch(Stamps(old(entries)), count, victims) && entries == old(entries) - victims
    {
      var victims := SelectOldest(Stamps(entries), count);
      BatchDropped(entries, count, victims);
      RemoveAll(victims);
    }

    /** Ends with both caps kept; the count never has to be reset, as an empty cache is in bounds. */
    method Enforce()
      requires Counted()
      modifies this`entries, this`totalBytes
      ensures Counted() && Enforced(kind.size, old(entries), entries)
      ensures Capped(entries, totalBytes) && DroppedOldest(entries, old(entries))
      ensures old(Capped(entries, totalBytes)) ==> entries == old(entries)
      ensures entries == old(entries) || |entries| + EVICT_BATCH <= |old(entries)| || entries == map[]
    {
      while |entries| > MAX_ENTRIES || totalBytes > MAX_TOTAL_BYTES
        invariant Counted() && DroppedOldest(entries, old(entries))
        invariant forall left :: Enforced(kind.size, entries, left) ==> Enforced(kind.size, old(entries), left)
        invariant old(Capped(entries, totalBytes)) ==> entries == old(entries) && totalBytes == old(totalBytes)
        invariant entries == old(entries) || |entries| + EVICT_BATCH <= |old(entries)| || entries == map[]
        decreases |entries|
      {
        if |entries| == 0 {
          assert false;
        }
        ghost var mid := entries;
        EvictOldest(EVICT_BATCH);
        ghost var victims :| OldestBatch(Stamps(mid), EVICT_BATCH, victims) && entries == mid - victims;
        EnforcedStep(kind.size, mid, victims);
        DroppedTwice(entries, mid, old(entries));
      }
    }

    /** Reserves an absent key with a tombstone, so that a snapshot of it can be told apart later. */
    method Reserve(key: Key, now: int, generation: Generation) returns (e: Entry<C>)
      requires Counted()
      modifies this`entries, this`totalBytes
      ensures e == Entry(kind.none, now, generation, true)
      ensures Counted() && Enforced(kind.size, old(entries)[key := e], entries)
      ensures Capped(entries, totalBytes) && DroppedOldest(entries, old(entries)[key := e])
      ensures entries == old(entries)[key := e] || |entries| + EVICT_BATCH <= |old(entries)[key := e]| || entries == map[]
    {
      e := Entry(kind.none, now, generation, true);
      Put(key, e);
      Enforce();
    }

    /** Puts an entry with a fresh generation, and keeps the caps. */
    method Install(key: Key, e: Entry<C>)
      requires Valid() && e.generation !in used && kind.fits(e.content)
      modifies this
      ensures Valid() && Installs(kind, old(Now()), key, e, Now())
      ensures Capped(entries, totalBytes) && DroppedOldest(entries, old(entries)[key := e])
      ensures used == old(used) + {e.generation} && old(Spent()) <= Spent()
      ensures key in old(entries) ==> old(entries)[key].generation in Spent()
    {
      SetKeeps(entries, used, kind, key, e);
      ghost var put := entries[key := e];
      used := used + {e.generation};
      Put(key, e);
      Enforce();
      DropKeeps(entries, put, used, kind);
      SpentGrows(entries, old(entries), old(used), key, e);
    }

    /** A read renews an entry's time to live. */
    method Touch(key: Key, now: int) returns (e: Entry<C>)
      requires Valid() && key in entries
      modifies this`entries
      ensures Valid() && e == old(entries)[key].(timestamp := now) && entries == old(entries)[key := e]
      ensures Live(entries) == Live(old(entries)) && |entries| == |old(entries)|
    {
      e := entries[key].(timestamp := now);
      BytesSet(entries, kind.size, key, e);
      BytesWithout(entries, kind.size, key);
      ghost var was := entries;
      entries := entries[key := e];
      assert forall k :: k in was ==> entries[k].generation == was[k].generation;
    }

    /** Reads a session, reserving it if it is absent or expired, and tells what was read apart by its generation. */
    method Get(key: Key, now: int, generation: Generation) returns (e: Entry<C>, snapshot: Snapshot)
      requires Valid() && generation !in used
      modifies this
      ensures Valid() && old(Spent()) <= Spent() && (old(Capped(entries, totalBytes)) ==> Capped(entries, totalBytes))
      ensures key in entries && entries[key] == e && e.timestamp == now && snapshot == Snapshot(e.generation, true, true)
      ensures Gets(kind, old(Now()), key, now, generation, snapshot, Now())
      ensures (key in old(entries) && now - old(entries)[key].timestamp <= TTL) || e == Entry(kind.none, now, generation, true)
    {
      if key !in entries || now - entries[key].timestamp > TTL {
        e := GetNew(key, now, generation);
      } else {
        e := Touch(key, now);
      }
      snapshot := Snapshot(e.generation, true, true);
    }

    /** The reservation, which is written once more after the caps have been enforced. */
    method ReserveTwice(key: Key, now: int, generation: Generation) returns (e: Entry<C>, ghost mid: map<Key, Entry<C>>)
      requires Counted() && key !in entries && kind.size(kind.none) == 0
      modifies this`entries, this`totalBytes
      ensures Counted() && e == Entry(kind.none, now, generation, true)
      ensures DroppedOldest(mid, old(entries)[key := e]) && ReservesOver(kind.size, old(entries), key, e, mid) && entries == mid[key := e]
      ensures Reserves(kind.size, old(entries), key, e, entries)
      ensures old(Capped(entries, totalBytes)) ==> Capped(entries, totalBytes)
    {
      e := Reserve(key, now, generation);
      mid := entries;
      RoomForOne(mid, old(entries), key, e);
      Put(key, e);
      assert ReservesOver(kind.size, old(entries), key, e, mid);
    }

    method GetAbsent(key: Key, now: int, generation: Generation) returns (e: Entry<C>)
      requires Valid() && key !in entries && generation !in used
      modifies this
      ensures Valid() && used == old(used) + {generation}
      ensures key in entries && entries[key] == e && e == Entry(kind.none, now, generation, true)
      ensures Reserves(kind.size, old(entries), key, e, entries)
      ensures entries.Keys <= old(entries).Keys + {key} && forall k :: k in entries && k != key ==> entries[k] == old(entries)[k]
      ensures old(Capped(entries, totalBytes)) ==> Capped(entries, totalBytes)
    {
      ghost var mid;
      e, mid := ReserveTwice(key, now, generation);
      Reinserted(entries, mid, old(entries), used, kind, key, e);
      used := used + {generation};
    }

    /** In place of an entry that is absent or has expired. */
    method GetNew(key: Key, now: int, generation: Generation) returns (e: Entry<C>)
      requires Valid() && generation !in used
      modifies this
      ensures Valid() && old(Spent()) <= Spent() && used == old(used) + {generation}
      ensures key in entries && entries[key] == e && e == Entry(kind.none, now, generation, true)
      ensures Reserves(kind.size, old(entries) - {key}, key, e, entries)
      ensures old(Capped(entries, totalBytes)) ==> Capped(entries, totalBytes)
    {
      ghost var was := entries;
      RemoveOne(key);
      e := GetAbsent(key, now, generation);
      SpentGrows(entries, was, old(used), key, e);
    }

    method RemoveOne(key: Key)
      requires Valid()
      modifies this`entries, this`totalBytes
      ensures Valid() && entries == old(entries) - {key} && entries.Keys <= old(entries).Keys && totalBytes <= old(totalBytes)
      ensures forall k :: k in entries ==> entries[k] == old(entries)[k]
      ensures old(Capped(entries, totalBytes)) ==> Capped(entries, totalBytes)
    {
      ghost var was := entries;
      Remove(key);
      assert entries.Keys == was.Keys - {key} && |entries.Keys| == |entries| && |was.Keys| == |was|;
    }

    /** Stores content whatever there was. */
    method Store(key: Key, x: X, now: int, generation: Generation)
      requires Valid() && generation !in used && Growable(kind, x)
      modifies this
      ensures Valid() && Capped(entries, totalBytes) && old(Spent()) <= Spent()
      ensures Installs(kind, old(Now()), key, Entry(kind.grow(kind.none, x), now, generation, false), Now())
      ensures DroppedOldest(entries, old(entries)[key := Entry(kind.grow(kind.none, x), now, generation, false)])
    {
      Install(key, Entry(kind.grow(kind.none, x), now, generation, false));
    }

    /** Adds content if nothing has changed since the snapshot. */
    method ReplaceIfUnchanged(key: Key, snapshot: Snapshot, x: X, now: int, generation: Generation) returns (ok: bool)
      requires Valid() && generation !in used && Growable(kind, x)
      modifies this
      ensures Valid() && old(Spent()) <= Spent()
      ensures Replaces(kind, old(Now()), key, snapshot, x, now, generation, ok, Now())
      ensures ok ==> Capped(entries, totalBytes)
      ensures ok ==>
                var has := if snapshot.loaded && key in old(entries) then old(entries)[key].content else kind.none;
                DroppedOldest(entries, old(entries)[key := Entry(kind.grow(has, x), now, generation, false)])
      ensures ok && snapshot.loaded && snapshot.found ==> snapshot.generation in Spent()
    {
      if !snapshot.loaded {
        Store(key, x, now, generation);
        return true;
      }
      if !Current(entries, key, snapshot) {
        return false;
      }
      var has := if key in entries then entries[key].content else kind.none;
      Install(key, Entry(kind.grow(has, x), now, generation, false));
      return true;
    }

    method DeleteRequired(key: Key)
      requires Valid()
      modifies this
      ensures Valid() && Now() == old(Now()).(entries := old(entries) - {key}) && old(Spent()) <= Spent()
      ensures totalBytes <= old(totalBytes) && (old(Capped(entries, totalBytes)) ==> Capped(entries, totalBytes))
    {
      RemoveOne(key);
    }

    /**
     * Leaves a tombstone if nothing has changed since the snapshot.  This alone does
     * not enforce the caps, and need not: a snapshot that was read found its key.
     */
    method DeleteIfUnchanged(key: Key, snapshot: Snapshot, now: int, generation: Generation) returns (ok: bool)
      requires Valid() && generation !in used
      modifies this
      ensures Valid() && old(Spent()) <= Spent()
      ensures DeletesIf(kind, old(Now()), key, snapshot, now, generation, ok, Now())
      ensures ok && snapshot.loaded && snapshot.found ==> snapshot.generation in Spent()
      ensures (snapshot.loaded ==> snapshot.found) && old(Capped(entries, totalBytes)) ==> Capped(entries, totalBytes)
    {
      if !snapshot.loaded {
        DeleteRequired(key);
        return true;
      }
      if !Current(entries, key, snapshot) {
        return false;
      }
      var e := Entry(kind.none, now, generation, true);
      SetKeeps(entries, used, kind, key, e);
      used := used + {generation};
      Put(key, e);
      SpentGrows(entries, old(entries), old(used), key, e);
      return true;
    }

    method Clear()
      requires Valid()
      modifies this
      ensures Valid() && Now() == old(Now()).(entries := map[]) && totalBytes == 0 && old(Spent()) <= Spent()
    {
      entries, totalBytes := map[], 0;
    }

    /** Drops all that has not been used for the time to live. */
    method PurgeExpired(now: int)
      requires Valid()
      modifies this
      ensures Valid() && totalBytes <= old(totalBytes) && old(Spent()) <= Spent()
      ensures Now() == old(Now()).(entries := Unexpired(old(entries), now))
    {
      var expired := set k | k in entries && now - entries[k].timestamp > TTL;
      RemoveAll(expired);
      assert entries == Unexpired(old(entries), now);
    }
  }

  /** An entry that has been evicted at once goes back into the room that its eviction made. */
  lemma RoomForOne<C>(mid: map<Key, Entry<C>>, absent: map<Key, Entry<C>>, key: Key, e: Entry<C>)
    requires key !in absent && |mid| <= MAX_ENTRIES
    requires mid == absent[key := e] || |mid| + EVICT_BATCH <= |absent[key := e]| || mid == map[]
    ensures |absent| <= MAX_ENTRIES ==> |mid[key := e]| <= MAX_ENTRIES
  {
    assert |absent[key := e]| == |absent| + 1;
    assert mid == absent[key := e] ==> mid[key := e] == mid;
    assert |mid[key := e]| <= |mid| + 1;
  }

  lemma SetKeeps<C(!new), X(!new)>(entries: map<Key, Entry<C>>, used: set<Generation>, kind: Kind<C, X>, key: Key, e: Entry<C>)
    requires Generations(entries, used) && AllFit(entries, kind) && e.generation !in used && kind.fits(e.content)
    ensures Generations(entries[key := e], used + {e.generation}) && AllFit(entries[key := e], kind)
  {
  }

  lemma DropKeeps<C(!new), X(!new)>(now: map<Key, Entry<C>>, was: map<Key, Entry<C>>, used: set<Generation>, kind: Kind<C, X>)
    requires DroppedOldest(now, was) && Generations(was, used) && AllFit(was, kind)
    ensures Generations(now, used) && AllFit(now, kind)
  {
  }

  /** Generations that were spent stay spent, and so is the one that was replaced. */
  lemma SpentGrows<C(!new)>(now: map<Key, Entry<C>>, was: map<Key, Entry<C>>, used: set<Generation>, key: Key, e: Entry<C>)
    requires Generations(was, used) && e.generation !in used
    requires now.Keys <= was.Keys + {key} && forall k :: k in now ==> now[k] == was[key := e][k]
    ensures used - Live(was) <= used + {e.generation} - Live(now)
    ensures key in was ==> was[key].generation in used + {e.generation} - Live(now)
  {
  }

  lemma Reinserted<C(!new), X(!new)>(now: map<Key, Entry<C>>, mid: map<Key, Entry<C>>, was: map<Key, Entry<C>>, used: set<Generation>, kind: Kind<C, X>,
                                   key: Key, e: Entry<C>)
    requires Generations(was, used) && AllFit(was, kind) && e.generation !in used && kind.fits(e.content)
    requires DroppedOldest(mid, was[key := e]) && now == mid[key := e]
    ensures Generations(now, used + {e.generation}) && AllFit(now, kind)
    ensures now.Keys <= was.Keys + {key} && forall k :: k in now && k != key ==> now[k] == was[k]
  {
  }

  lemma DroppedTwice<C(!new)>(c: map<Key, Entry<C>>, b: map<Key, Entry<C>>, a: map<Key, Entry<C>>)
    requires DroppedOldest(c, b) && DroppedOldest(b, a)
    ensures DroppedOldest(c, a)
  {
    forall v, s | v in a && v !in c && s in c
      ensures a[v].timestamp <= a[s].timestamp
    {
      if v in b {
        assert b[v].timestamp <= b[s].timestamp;
      }
    }
  }

  // -------------------------------------------------------------------- Kimi

  const MAX_SESSION_BYTES: nat := 0x80_0000

  function KimiSize(content: string): nat {
    |content|
  }

  function KimiGrow(content: string, x: string): string {
    x
  }

  predicate KimiFits(content: string) {
    |content| <= MAX_SESSION_BYTES
  }

  const KIMI: Kind<string, string> := Kind("", KimiSize, KimiGrow, KimiFits)

  lemma KimiGrowable(x: string)
    ensures Growable(KIMI, x) <==> |x| <= MAX_SESSION_BYTES
  {
    assert KIMI.fits(KIMI.none) && KIMI.grow("", x) == x;
  }

  // ------------------------------------------------------------------ Claude

  const MAX_SESSION_TURNS: nat := 64

  /** A content in canonical JSON, if it is JSON. */
  type Canonical = string -> Option<string>

  predicate SameJson(canonical: Canonical, a: string, b: string) {
    canonical(a).Some? && canonical(a) == canonical(b)
  }

  function TurnBytes(turns: seq<string>): nat {
    if turns == [] then 0 else |turns[0]| + TurnBytes(turns[1..])
  }

  predicate TurnsFit(turns: seq<string>) {
    |turns| <= MAX_SESSION_TURNS && TurnBytes(turns) <= MAX_SESSION_BYTES
  }

  function Newest(turns: seq<string>): seq<string> {
    if TurnsFit(turns) || turns == [] then turns else Newest(turns[1..])
  }

  predicate HasSame(canonical: Canonical, turns: seq<string>, x: string) {
    exists i :: 0 <= i < |turns| && SameJson(canonical, turns[i], x)
  }

  function AppendedTurn(canonical: Canonical, turns: seq<string>, x: string): seq<string> {
    if HasSame(canonical, turns, x) then turns else Newest(turns + [x])
  }

  method AppendContent(canonical: Canonical, turns: seq<string>, x: string) returns (out: seq<string>)
    ensures out == AppendedTurn(canonical, turns, x)
  {
    for i := 0 to |turns|
      invariant forall j :: 0 <= j < i ==> !SameJson(canonical, turns[j], x)
    {
      if SameJson(canonical, turns[i], x) {
        return turns;
      }
    }
    out := turns + [x];
    while !TurnsFit(out)
      invariant Newest(out) == Newest(turns + [x])
      decreases |out|
    {
      out := out[1..];
    }
  }

  /** What is left is the longest suffix within both bounds, and a turn that fits by itself is in it. */
  lemma {:induction false} NewestIsLongest(turns: seq<string>)
    ensures var out := Newest(turns);
            && TurnsFit(out) && |out| <= |turns| && out == turns[|turns| - |out|..]
            && (forall k :: 0 <= k < |turns| - |out| ==> !TurnsFit(turns[k..]))
            && (turns != [] && |turns[|turns| - 1]| <= MAX_SESSION_BYTES ==> out != [])
  {
    if TurnsFit(turns) || turns == [] {
      assert turns[0..] == turns;
    } else {
      var rest := turns[1..];
      NewestIsLongest(rest);
      forall k | 0 < k <= |turns|
        ensures turns[k..] == rest[k - 1..]
      {
      }
      assert turns[0..] == turns;
      if |turns| == 1 {
        assert rest == [];
        assert TurnBytes(turns) == |turns[0]|;
      }
    }
  }

  /** A Claude session stays in bounds and keeps its newest turn, whatever it held. */
  lemma ClaudeAppend(canonical: Canonical, turns: seq<string>, x: string)
    requires |x| <= MAX_SESSION_BYTES
    ensures var out := AppendedTurn(canonical, turns, x);
            && (TurnsFit(turns) ==> TurnsFit(out))
            && (if HasSame(canonical, turns, x) then out == turns else out != [] && out[|out| - 1] == x)
  {
    NewestIsLongest(turns + [x]);
  }

  function Claude(canonical: Canonical): Kind<seq<string>, string> {
    Kind([], TurnBytes, (turns: seq<string>, x: string) => AppendedTurn(canonical, turns, x), TurnsFit)
  }

  lemma ClaudeGrowable(canonical: Canonical, x: string)
    requires |x| <= MAX_SESSION_BYTES
    ensures Growable(Claude(canonical), x)
  {
    forall turns: seq<string> | TurnsFit(turns)
      ensures TurnsFit(AppendedTurn(canonical, turns, x))
    {
      ClaudeAppend(canonical, turns, x);
    }
  }
}

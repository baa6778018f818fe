/**
 * Reading back from the in-process Antigravity cache: what a write leaves there is
 * what the next load of the key hands out, as long as the entry is neither evicted nor
 * expired.
 */
module AntigravityLocalReads {
  import opened AntigravityReplay
  import opened Eviction

  lemma SettledEntries(c: Cache, d: Cache)
    requires Settles(c, d)
    ensures d.entries.Keys <= c.entries.Keys && forall k :: k in d.entries ==> d.entries[k] == c.entries[k]
    ensures |c.entries| <= MAX_ENTRIES ==> d == c
  {
  }

  /** A load of an entry that has not expired. */
  lemma LoadsEntry(c: Cache, key: Key, now: int, snap: Snapshot, d: Cache)
    requires key != "" && key in c.entries && !Expired(c.entries[key], now) && Loads(c, key, now, snap, d)
    ensures var e := c.entries[key];
            snap == Snapshot(if e.deleted then [] else e.items, true, true, e.revision, e.branch, c.epoch)
  {
  }

  /** The write of a key is in the cache afterwards if there was room for it. */
  lemma WrittenStays(c: Cache, mid: Cache, d: Cache, key: Key)
    requires Settles(mid, d) && key in mid.entries && mid.entries.Keys == c.entries.Keys + {key}
    requires |c.entries| < MAX_ENTRIES || (key in c.entries && |c.entries| <= MAX_ENTRIES)
    ensures key in d.entries
  {
    if key in c.entries {
      assert mid.entries.Keys == c.entries.Keys;
      assert |mid.entries| == |mid.entries.Keys| == |c.entries.Keys| == |c.entries|;
    } else {
      assert |mid.entries| == |mid.entries.Keys| == |c.entries.Keys| + 1 == |c.entries| + 1;
    }
  }

  ghost predicate Room(c: Cache, key: Key) {
    |c.entries| < MAX_ENTRIES || (key in c.entries && |c.entries| <= MAX_ENTRIES)
  }

  /** An unconditional write is read back, under a new revision and on a new branch. */
  lemma OverwriteReadsBack(c: Cache, key: Key, items: seq<Item>, now: int, d: Cache, later: int, snap: Snapshot, e: Cache)
    requires Overwrites(c, key, items, now, true, d) && (Room(c, key) || key in d.entries)
    requires later - now <= TTL && Loads(d, key, later, snap, e)
    ensures snap.loaded && snap.found && snap.items == items && snap.revision > c.revision && snap.branch > c.nonces
  {
    var mid := PublishFresh(c, key, items, now);
    SettledEntries(mid, d);
    if Room(c, key) {
      WrittenStays(c, mid, d, key);
    }
    LoadsEntry(d, key, later, snap, e);
  }

  /**
   * So is a replace that succeeds: on the snapshot's branch, if its entry is still the
   * one that was loaded and the items extend what was, or if they extend a later state
   * of that branch; else on a new branch.
   */
  lemma ReplaceReadsBack(c: Cache, key: Key, given: Snapshot, items: seq<Item>, now: int, d: Cache, later: int, snap: Snapshot, e: Cache)
    requires Replaces(c, key, given, items, now, true, d) && given.loaded && (Room(c, key) || key in d.entries)
    requires later - now <= TTL && Loads(d, key, later, snap, e)
    ensures snap.loaded && snap.found && snap.items == items && snap.revision > c.revision
    ensures if given.branch != 0 && (given.items <= items || !Matches(c, key, given)) then snap.branch == given.branch else snap.branch > c.nonces
  {
    var anew := given.branch == 0 || (Matches(c, key, given) && !(given.items <= items));
    var mid := if anew then PublishFresh(c, key, items, now) else Publish(c, key, items, now, given.branch);
    SettledEntries(mid, d);
    if Room(c, key) {
      WrittenStays(c, mid, d, key);
    }
    LoadsEntry(d, key, later, snap, e);
  }

  /** After a deletion a load hands out no items, under a new revision and on a new branch. */
  lemma DeleteReadsBack(c: Cache, key: Key, now: int, d: Cache, later: int, snap: Snapshot, e: Cache)
    requires key != "" && Deletes(c, key, now, d) && (Room(c, key) || key in d.entries)
    requires later - now <= TTL && Loads(d, key, later, snap, e)
    ensures snap.loaded && snap.items == [] && snap.revision > c.revision && snap.branch > c.nonces
  {
    var mid := Tombstone(c, key, now);
    SettledEntries(mid, d);
    if Room(c, key) {
      WrittenStays(c, mid, d, key);
    }
    LoadsEntry(d, key, later, snap, e);
  }

  /** A conditional deletion that succeeds does the same. */
  lemma DeleteIfReadsBack(c: Cache, key: Key, given: Snapshot, now: int, d: Cache, later: int, snap: Snapshot, e: Cache)
    requires DeletesIf(c, key, given, now, true, d) && (Room(c, key) || key in d.entries)
    requires later - now <= TTL && Loads(d, key, later, snap, e)
    ensures snap.loaded && snap.items == [] && snap.revision > c.revision && snap.branch > c.nonces
  {
    assert Deletes(c, key, now, d);
    DeleteReadsBack(c, key, now, d, later, snap, e);
  }

  /** A load of a key that is absent, or has expired, hands out no items, under a new revision and on a new branch. */
  lemma MissReadsNothing(c: Cache, key: Key, now: int, snap: Snapshot, d: Cache)
    requires key != "" && Loads(c, key, now, snap, d) && (key !in c.entries || now - c.entries[key].timestamp > TTL)
    ensures snap.loaded && snap.items == [] && snap.revision > c.revision && snap.branch > c.nonces && key in d.entries
  {
  }
}

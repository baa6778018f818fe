/**
 * What the thinking replay caches hand out: the turns that were stored, the earlier
 * ones as far as both session caps allow, and nothing after a deletion.
 */
module ThinkingReads {
  import opened ThinkingReplay
  import opened ThinkingRuns

  // ------------------------------------------------------------ earlier turns

  /** No turn equals the new one as JSON. */
  predicate IsNew(canonical: Canonical, turns: seq<string>, x: string) {
    forall i :: 0 <= i < |turns| ==> canonical(turns[i]).None? || canonical(turns[i]) != canonical(x)
  }

  /**
   * A turn that is not there yet goes behind all the turns that were, and the oldest
   * go, no more of them than both caps demand.
   */
  lemma AppendKeepsTurns(canonical: Canonical, turns: seq<string>, x: string)
    requires IsNew(canonical, turns, x)
    ensures var all, out := turns + [x], AppendedTurn(canonical, turns, x);
            && |out| <= |all| && out == all[|all| - |out|..] && TurnsFit(out)
            && (forall j :: 0 <= j < |all| - |out| ==> !TurnsFit(all[j..]))
            && (TurnsFit(all) ==> out == all)
  {
    NewestIsLongest(turns + [x]);
    assert (turns + [x])[0..] == turns + [x];
  }

  /** A turn that equals one that is there, as JSON, changes nothing. */
  lemma SameTurnChangesNothing(canonical: Canonical, turns: seq<string>, x: string, i: nat)
    requires i < |turns| && canonical(turns[i]).Some? && canonical(turns[i]) == canonical(x)
    ensures AppendedTurn(canonical, turns, x) == turns
  {
    assert SameJson(canonical, turns[i], x);
  }

  /** The bytes of a session are those of its turns. */
  lemma {:induction false} TurnBytesConcat(a: seq<string>, b: seq<string>)
    ensures TurnBytes(a + b) == TurnBytes(a) + TurnBytes(b) && forall x: string :: TurnBytes([x]) == |x|
  {
    if a == [] {
      assert a + b == b;
    } else {
      assert (a + b)[1..] == a[1..] + b;
      TurnBytesConcat(a[1..], b);
    }
  }

  // -------------------------------------------------------------- reading back

  /** What a read hands out of a key that has a live entry. */
  lemma GetsEntry<C(!new), X>(kind: Kind<C, X>, s: Held<C>, key: Key, now: int, generation: Generation, snap: Snapshot, t: Held<C>)
    requires Gets(kind, s, key, now, generation, snap, t) && key in s.entries && now - s.entries[key].timestamp <= TTL
    ensures key in t.entries && t.entries[key] == s.entries[key].(timestamp := now)
    ensures snap == Snapshot(s.entries[key].generation, true, true)
  {
  }

  /** A store is read back, if it has not been evicted: that content alone, under its new generation. */
  lemma StoreReadsBack<C(!new), X(!new)>(kind: Kind<C, X>, s: Held<C>, key: Key, x: X, now: int, generation: Generation, t: Held<C>,
                                       later: int, next: Generation, snap: Snapshot, u: Held<C>)
    requires Step(kind, s, Stored(key, x, now, generation), t) && key in t.entries
    requires later - now <= TTL && Step(kind, t, Got(key, later, next, snap), u)
    ensures key in u.entries && u.entries[key].content == kind.grow(kind.none, x) && !u.entries[key].deleted
    ensures snap.generation == generation && generation !in s.used
  {
    EnforcedCaps(kind.size, s.entries[key := Entry(kind.grow(kind.none, x), now, generation, false)], t.entries);
    GetsEntry(kind, t, key, later, next, snap, u);
  }

  /** So is a replace: its content joins what the key had. */
  lemma ReplaceReadsBack<C(!new), X(!new)>(kind: Kind<C, X>, s: Held<C>, key: Key, given: Snapshot, x: X, now: int, generation: Generation, t: Held<C>,
                                         later: int, next: Generation, snap: Snapshot, u: Held<C>)
    requires Step(kind, s, Replaced(key, given, x, now, generation, true), t) && key in t.entries && given.loaded && given.found
    requires later - now <= TTL && Step(kind, t, Got(key, later, next, snap), u)
    ensures key in s.entries && s.entries[key].generation == given.generation
    ensures key in u.entries && u.entries[key].content == kind.grow(s.entries[key].content, x) && !u.entries[key].deleted
    ensures snap.generation == generation && generation !in s.used
  {
    EnforcedCaps(kind.size, s.entries[key := Entry(kind.grow(s.entries[key].content, x), now, generation, false)], t.entries);
    GetsEntry(kind, t, key, later, next, snap, u);
  }

  /** After a deletion with a snapshot a read finds nothing, under a new generation. */
  lemma DeleteReadsBack<C(!new), X(!new)>(kind: Kind<C, X>, s: Held<C>, key: Key, given: Snapshot, now: int, generation: Generation, t: Held<C>,
                                        later: int, next: Generation, snap: Snapshot, u: Held<C>)
    requires Step(kind, s, DeletedIf(key, given, now, generation, true), t) && given.loaded
    requires later - now <= TTL && Step(kind, t, Got(key, later, next, snap), u)
    ensures key in u.entries && u.entries[key].content == kind.none && u.entries[key].deleted
    ensures snap.generation == generation && generation !in s.used
  {
    GetsEntry(kind, t, key, later, next, snap, u);
  }

  /** A key that is absent, or has expired, is read as nothing, under a new generation. */
  lemma MissReadsNothing<C(!new), X(!new)>(kind: Kind<C, X>, s: Held<C>, key: Key, now: int, generation: Generation, snap: Snapshot, t: Held<C>)
    requires Step(kind, s, Got(key, now, generation, snap), t)
    requires key !in s.entries || now - s.entries[key].timestamp > TTL
    ensures key in t.entries && t.entries[key].content == kind.none && t.entries[key].deleted
    ensures snap.generation == generation && generation !in s.used
  {
    ReserveDrops(kind.size, s.entries - {key}, key, Entry(kind.none, now, generation, true), t.entries);
  }

  /**
   * A Claude session over a replace: the turns that a read found before, the new turn
   * behind them, and as many of the oldest gone as both caps demand.
   */
  lemma ClaudeTurnsReadBack(canonical: Canonical, s: Held<seq<string>>, key: Key, given: Snapshot, x: string, now: int, generation: Generation,
                            t: Held<seq<string>>, later: int, next: Generation, snap: Snapshot, u: Held<seq<string>>)
    requires Step(Claude(canonical), s, Replaced(key, given, x, now, generation, true), t) && key in t.entries && given.loaded && given.found
    requires later - now <= TTL && Step(Claude(canonical), t, Got(key, later, next, snap), u)
    requires key in s.entries && IsNew(canonical, s.entries[key].content, x)
    ensures key in u.entries
    ensures var all, out := s.entries[key].content + [x], u.entries[key].content;
            && |out| <= |all| && out == all[|all| - |out|..] && TurnsFit(out)
            && forall j :: 0 <= j < |all| - |out| ==> !TurnsFit(all[j..])
  {
    ReplaceReadsBack(Claude(canonical), s, key, given, x, now, generation, t, later, next, snap, u);
    assert Claude(canonical).grow(s.entries[key].content, x) == AppendedTurn(canonical, s.entries[key].content, x);
    AppendKeepsTurns(canonical, s.entries[key].content, x);
  }

  /** A Kimi session over a replace has the new content alone. */
  lemma KimiContentReadsBack(s: Held<string>, key: Key, given: Snapshot, x: string, now: int, generation: Generation,
                             t: Held<string>, later: int, next: Generation, snap: Snapshot, u: Held<string>)
    requires Step(KIMI, s, Replaced(key, given, x, now, generation, true), t) && key in t.entries && given.loaded && given.found
    requires later - now <= TTL && Step(KIMI, t, Got(key, later, next, snap), u)
    ensures key in u.entries && u.entries[key].content == x && !u.entries[key].deleted
  {
    ReplaceReadsBack(KIMI, s, key, given, x, now, generation, t, later, next, snap, u);
    assert KIMI.grow(s.entries[key].content, x) == x;
  }
}

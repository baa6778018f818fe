/**
 * Reading back from the shared Antigravity register: what a write leaves there is what
 * the next read of any client hands out.
 */
module AntigravityReads {
  import opened AntigravityHome
  import opened Wrappers

  /** The client may begin a load. */
  predicate Free(s: Home, d: Client) {
    PhaseOf(s, d).Idle? || PhaseOf(s, d).Holding?
  }

  /** What a client holds after a load that no other step comes between. */
  function ReadNow(actions: seq<Action>, d: Client): Phase {
    PhaseOf(Exec(actions + [BeginLoad(d)] + [Read(d)]), d)
  }

  lemma ExecSnoc(actions: seq<Action>, a: Action)
    ensures Exec(actions + [a]) == Next(Exec(actions), a)
  {
    assert (actions + [a])[..|actions|] == actions;
  }

  lemma ReadsRegister(actions: seq<Action>, d: Client)
    requires Free(Exec(actions), d) && Exec(actions).register.Some?
    ensures ReadNow(actions, d) == Holding(SnapshotOf(Exec(actions).register.value))
  {
    ExecSnoc(actions, BeginLoad(d));
    ExecSnoc(actions + [BeginLoad(d)], Read(d));
  }

  // -------------------------------------------------------------- generations

  /** Every value in the log has a generation of its own, drawn before. */
  ghost predicate Drawn(s: Home) {
    && (forall i :: 0 <= i < |s.log| ==> s.log[i].generation <= s.nonces)
    && (forall i, j :: 0 <= i < j < |s.log| ==> s.log[i].generation != s.log[j].generation)
  }

  lemma NextDrawn(s: Home, a: Action)
    requires Drawn(s)
    ensures Drawn(Next(s, a))
  {
  }

  lemma {:induction false} ExecDrawn(actions: seq<Action>)
    ensures Drawn(Exec(actions))
  {
    if actions != [] {
      ExecDrawn(actions[..|actions| - 1]);
      NextDrawn(Exec(actions[..|actions| - 1]), actions[|actions| - 1]);
    }
  }

  /** No value before had this generation. */
  ghost predicate FreshIn(raw: Raw, log: seq<Stored>) {
    raw.Marked? && forall i :: 0 <= i < |log| ==> log[i].generation != raw.generation
  }

  ghost predicate NewBranch(branch: nat, log: seq<Stored>) {
    branch != 0 && forall i :: 0 <= i < |log| ==> log[i].branch != branch
  }

  /** Holding a value read under a generation nobody has seen. */
  ghost predicate HoldsNew(p: Phase, branch: nat, items: seq<Item>, log: seq<Stored>) {
    p.Holding? && p.snap.raw.Some? && FreshIn(p.snap.raw.value, log) && p.snap.branch == branch && p.snap.items == items
  }

  // -------------------------------------------------------------- reading back

  /** A swap that succeeds stores its items on its branch: the next read of any client finds them there. */
  lemma SwapReadsBack(actions: seq<Action>, c: Client, d: Client)
    requires PhaseOf(Exec(actions), c).Swapping? && Exec(actions).register == PhaseOf(Exec(actions), c).expected
    requires c == d || Free(Exec(actions), d)
    ensures var p := PhaseOf(Exec(actions), c);
            HoldsNew(ReadNow(actions + [Swap(c)], d), p.branch, p.items, Exec(actions).log)
  {
    ExecDrawn(actions);
    ExecSnoc(actions, Swap(c));
    ReadsRegister(actions + [Swap(c)], d);
  }

  /** A swap that does not find what it expects stores nothing. */
  lemma LostSwapStoresNothing(actions: seq<Action>, c: Client)
    requires PhaseOf(Exec(actions), c).Swapping? && Exec(actions).register != PhaseOf(Exec(actions), c).expected
    ensures var t := Exec(actions + [Swap(c)]); t.register == Exec(actions).register && t.log == Exec(actions).log
  {
    ExecSnoc(actions, Swap(c));
  }

  /**
   * A replace that no other step comes between, with a snapshot that is current: the
   * next read finds its items, on the snapshot's branch if they extend what it saw
   * there, else on a branch nobody has used.
   */
  lemma ReplaceReadsBack(actions: seq<Action>, c: Client, d: Client, items: seq<Item>)
    requires PhaseOf(Exec(actions), c).Holding? && Exec(actions).register == PhaseOf(Exec(actions), c).snap.raw
    requires c == d || Free(Exec(actions), d)
    ensures var snap, p := PhaseOf(Exec(actions), c).snap, ReadNow(actions + [BeginReplace(c, items)] + [Swap(c)], d);
            && p.Holding? && HoldsNew(p, p.snap.branch, items, Exec(actions).log)
            && if snap.branch != 0 && snap.items <= items then p.snap.branch == snap.branch else NewBranch(p.snap.branch, Exec(actions).log)
  {
    var begun := actions + [BeginReplace(c, items)];
    ExecSnoc(actions, BeginReplace(c, items));
    ExecInv(begun);
    assert PhaseOk(Exec(begun), PhaseOf(Exec(begun), c));
    assert Exec(begun).log == Exec(actions).log && Exec(begun).register == Exec(actions).register;
    SwapReadsBack(begun, c, d);
  }

  /** An unconditional write is read back on a branch nobody has used. */
  lemma SetReadsBack(actions: seq<Action>, d: Client, items: seq<Item>)
    requires Free(Exec(actions), d)
    ensures var p := ReadNow(actions + [Set(items)], d);
            p.Holding? && HoldsNew(p, p.snap.branch, items, Exec(actions).log) && NewBranch(p.snap.branch, Exec(actions).log)
  {
    ExecDrawn(actions);
    ExecInv(actions);
    ExecSnoc(actions, Set(items));
    ReadsRegister(actions + [Set(items)], d);
  }

  /** After a deletion, unconditional or with a snapshot that is current, a read hands out no items and a new branch. */
  lemma DeleteReadsBack(actions: seq<Action>, a: Action, d: Client)
    requires Free(Exec(actions), d)
    requires a == Delete ||
      (a.DeleteIf? && PhaseOf(Exec(actions), a.c).Holding? && Exec(actions).register == PhaseOf(Exec(actions), a.c).snap.raw)
    ensures var p := ReadNow(actions + [a], d);
            p.Holding? && HoldsNew(p, p.snap.branch, [], Exec(actions).log) && NewBranch(p.snap.branch, Exec(actions).log)
  {
    ExecDrawn(actions);
    ExecInv(actions);
    ExecSnoc(actions, a);
    ReadsRegister(actions + [a], d);
  }

  /** A read of an absent value reserves it: a second reader shares the branch, and has no items. */
  lemma ReserveReadsBack(actions: seq<Action>, c: Client, d: Client)
    requires PhaseOf(Exec(actions), c).Reserving? && Exec(actions).register.None? && c != d && Free(Exec(actions), d)
    ensures var t := Exec(actions + [Reserve(c)]);
            && PhaseOf(t, c).Holding? && NewBranch(PhaseOf(t, c).snap.branch, Exec(actions).log) && PhaseOf(t, c).snap.items == []
            && ReadNow(actions + [Reserve(c)], d) == PhaseOf(t, c)
  {
    ExecInv(actions);
    ExecSnoc(actions, Reserve(c));
    ReadsRegister(actions + [Reserve(c)], d);
  }

  /** A replace that lost its swap tries again, up to three times, over a live value of its branch that its items extend. */
  lemma LostSwapRetries(actions: seq<Action>, c: Client)
    requires PhaseOf(Exec(actions), c).Swapping? && Exec(actions).register != PhaseOf(Exec(actions), c).expected
    requires var s, p := Exec(actions), PhaseOf(Exec(actions), c);
             && p.attempt < 3 && s.register.Some? && s.register.value.Marked? && !s.register.value.deleted
             && s.register.value.branch == p.snap.branch != 0 && s.register.value.items <= p.items
    ensures var p, t := PhaseOf(Exec(actions), c), PhaseOf(Exec(actions + [Swap(c)] + [Reread(c)]), c);
            t.Swapping? && t.expected == Exec(actions).register && t.items == p.items && t.branch == p.branch
  {
    ExecSnoc(actions, Swap(c));
    ExecSnoc(actions + [Swap(c)], Reread(c));
  }
}

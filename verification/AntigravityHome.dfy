/**
 * The Antigravity replay protocol over Home's shared compare-and-swap register:
 * any number of clients, each call broken into its single register accesses and
 * interleaved in any order, with expiry, foreign writers and lost replies.
 */
module AntigravityHome {
  import opened Wrappers

  type Item = string
  type Client = nat

  const ATTEMPTS: nat := 4

  /**
   * A register value.  `Marked` is what this code writes: every write draws a new
   * generation, so no two writes are equal.  `Foreign` is any value without the
   * marker; `items` is what the normalizer accepts of it, empty if it rejects it.
   */
  datatype Raw =
    | Marked(generation: nat, branch: nat, deleted: bool, items: seq<Item>)
    | Foreign(id: nat, items: seq<Item>)

  type Stored = raw: Raw | raw.Marked? witness Marked(0, 0, false, [])

  /** Branch 0 stands for the empty name: an absent, failed or foreign read. */
  datatype Snapshot = Snapshot(raw: Option<Raw>, branch: nat, items: seq<Item>)

  /** Where one client stands between two register accesses. */
  datatype Phase =
    | Idle
    | Reading(attempt: nat)
    | Reserving(attempt: nat)
    | Holding(snap: Snapshot)
    | Swapping(snap: Snapshot, items: seq<Item>, branch: nat, expected: Option<Raw>, attempt: nat)
    | Rereading(snap: Snapshot, items: seq<Item>, branch: nat, attempt: nat)

  /** `log` is every marked value that reached the register, oldest first. */
  datatype Home = Home(register: Option<Raw>, log: seq<Stored>, nonces: nat, clients: map<Client, Phase>)

  const START: Home := Home(None, [], 0, map[])

  datatype Action =
    | BeginLoad(c: Client)
    | Read(c: Client)
    | Reserve(c: Client)
    | BeginReplace(c: Client, items: seq<Item>)
    | Swap(c: Client)
    | Reread(c: Client)
    | DeleteIf(c: Client)
    | Fail(c: Client)
    | Set(items: seq<Item>)
    | Delete
    | ForeignSet(id: nat, items: seq<Item>)
    | Expire

  function PhaseOf(s: Home, c: Client): Phase {
    if c in s.clients then s.clients[c] else Idle
  }

  function Goto(s: Home, c: Client, p: Phase): Home {
    s.(clients := s.clients[c := p])
  }

  function SnapshotOf(raw: Raw): Snapshot {
    match raw
    case Marked(_, branch, deleted, items) => Snapshot(Some(raw), branch, if deleted then [] else items)
    case Foreign(_, items) => Snapshot(Some(raw), 0, items)
  }

  /** Stores a new marked value; its generation is the next nonce. */
  function Store(s: Home, branch: nat, deleted: bool, items: seq<Item>): Home {
    var raw := Marked(s.nonces + 1, branch, deleted, items);
    s.(register := Some(raw), log := s.log + [raw], nonces := s.nonces + 1)
  }

  /** A value on a branch drawn for it: tombstones and unconditional writes. */
  function StoreFresh(s: Home, deleted: bool, items: seq<Item>): Home {
    Store(s.(nonces := s.nonces + 1), s.nonces + 1, deleted, items)
  }

  /** A read that could not be fenced still hands out a snapshot of an absent register. */
  const UNREAD: Snapshot := Snapshot(None, 0, [])

  function Next(s: Home, a: Action): Home {
    match a
    case BeginLoad(c) =>
      if PhaseOf(s, c).Idle? || PhaseOf(s, c).Holding? then Goto(s, c, Reading(0)) else s
    case Read(c) =>
      if !PhaseOf(s, c).Reading? then s
      else if s.register.Some? then Goto(s, c, Holding(SnapshotOf(s.register.value)))
      else Goto(s, c, Reserving(PhaseOf(s, c).attempt))
    case Reserve(c) =>
      var p := PhaseOf(s, c);
      if !p.Reserving? then s
      else if s.register.None? then
        var t := StoreFresh(s, true, []);
        Goto(t, c, Holding(SnapshotOf(t.register.value)))
      else if p.attempt + 1 < ATTEMPTS then Goto(s, c, Reading(p.attempt + 1))
      else Goto(s, c, Holding(UNREAD))
    case BeginReplace(c, items) =>
      var p := PhaseOf(s, c);
      if !p.Holding? then s
      else if p.snap.branch == 0 || !(p.snap.items <= items) then
        Goto(s.(nonces := s.nonces + 1), c, Swapping(p.snap, items, s.nonces + 1, p.snap.raw, 0))
      else
        Goto(s, c, Swapping(p.snap, items, p.snap.branch, p.snap.raw, 0))
    case Swap(c) =>
      var p := PhaseOf(s, c);
      if !p.Swapping? then s
      else if s.register == p.expected then Goto(Store(s, p.branch, false, p.items), c, Holding(p.snap))
      else Goto(s.(nonces := s.nonces + 1), c, Rereading(p.snap, p.items, p.branch, p.attempt))
    case Reread(c) =>
      var p := PhaseOf(s, c);
      if !p.Rereading? then s
      else if Retries(s, p) then Goto(s, c, Swapping(p.snap, p.items, p.branch, s.register, p.attempt + 1))
      else Goto(s, c, Holding(p.snap))
    case DeleteIf(c) =>
      var p := PhaseOf(s, c);
      if p.Holding? && s.register == p.snap.raw then StoreFresh(s, true, []) else s
    case Fail(c) =>
      var p := PhaseOf(s, c);
      if p.Swapping? || p.Rereading? then Goto(s, c, Holding(p.snap))
      else if p.Reading? || p.Reserving? then Goto(s, c, Holding(UNREAD))
      else s
    case Set(items) => StoreFresh(s, false, items)
    case Delete => StoreFresh(s, true, [])
    case ForeignSet(id, items) => s.(register := Some(Foreign(id, items)))
    case Expire => s.(register := None)
  }

  /** After a failed swap: try again only over a live value on the snapshot's branch that the items extend. */
  predicate Retries(s: Home, p: Phase)
    requires p.Rereading?
  {
    && p.attempt + 1 < ATTEMPTS
    && s.register.Some?
    && s.register.value.Marked?
    && !s.register.value.deleted
    && p.snap.branch != 0
    && s.register.value.branch == p.snap.branch
    && s.register.value.items <= p.items
  }

  function Exec(actions: seq<Action>): Home {
    if actions == [] then START else Next(Exec(actions[..|actions| - 1]), actions[|actions| - 1])
  }

  // -------------------------------------------------------------- invariants

  ghost predicate Chain(log: seq<Stored>) {
    forall i, j :: 0 <= i <= j < |log| && log[i].branch == log[j].branch ==> log[i].items <= log[j].items
  }

  ghost predicate LogOk(s: Home) {
    forall i :: 0 <= i < |s.log| ==>
      1 <= s.log[i].branch <= s.nonces && (s.log[i].deleted ==> s.log[i].items == [])
  }

  /** Nobody has stored a value on this branch. */
  ghost predicate Unused(s: Home, branch: nat) {
    1 <= branch <= s.nonces && forall i :: 0 <= i < |s.log| ==> s.log[i].branch != branch
  }

  /** Everything ever stored on the branch of `raw` is a prefix of it. */
  ghost predicate Tip(s: Home, raw: Raw) {
    raw.Marked? ==>
      raw in s.log && forall i :: 0 <= i < |s.log| && s.log[i].branch == raw.branch ==> s.log[i].items <= raw.items
  }

  ghost predicate SnapOk(s: Home, snap: Snapshot) {
    if snap.raw.Some? && snap.raw.value.Marked? then
      snap.raw.value in s.log && snap.branch == snap.raw.value.branch && snap.items == snap.raw.value.items
    else
      snap.branch == 0
  }

  /** The branch a pending replace writes: the snapshot's own, extended, or one nobody has used. */
  ghost predicate BranchOk(s: Home, snap: Snapshot, items: seq<Item>, branch: nat) {
    if branch == snap.branch then branch != 0 && snap.items <= items
    else Unused(s, branch) && (snap.branch == 0 || !(snap.items <= items))
  }

  ghost predicate Forked(p: Phase) {
    (p.Swapping? || p.Rereading?) && p.branch != p.snap.branch
  }

  ghost predicate PhaseOk(s: Home, p: Phase) {
    match p
    case Idle => true
    case Reading(_) => true
    case Reserving(_) => true
    case Holding(snap) => SnapOk(s, snap)
    case Swapping(snap, items, branch, expected, attempt) =>
      && SnapOk(s, snap) && BranchOk(s, snap, items, branch)
      && (attempt == 0 ==> expected == snap.raw)
      && (attempt > 0 ==> branch == snap.branch && Continues(s, expected, snap.branch, items))
    case Rereading(snap, items, branch, attempt) =>
      && SnapOk(s, snap) && BranchOk(s, snap, items, branch)
      && (attempt > 0 ==> branch == snap.branch)
  }

  /** A live value already stored on the branch, which the items extend. */
  ghost predicate Continues(s: Home, expected: Option<Raw>, branch: nat, items: seq<Item>) {
    && expected.Some? && expected.value.Marked? && !expected.value.deleted
    && expected.value in s.log && expected.value.branch == branch && expected.value.items <= items
  }

  ghost predicate ClientsOk(s: Home) {
    && (forall c :: c in s.clients ==> PhaseOk(s, s.clients[c]))
    && (forall c, d :: c in s.clients && d in s.clients && c != d && Forked(s.clients[c]) && Forked(s.clients[d]) ==>
          s.clients[c].branch != s.clients[d].branch)
  }

  ghost predicate Inv(s: Home) {
    && LogOk(s) && Chain(s.log)
    && (s.register.Some? ==> Tip(s, s.register.value))
    && ClientsOk(s)
  }

  // ------------------------------------------------------------------ proofs

  /** Storing on an unused branch, or on the branch of the value it replaces. */
  ghost predicate MayStore(s: Home, branch: nat, items: seq<Item>) {
    || (branch == s.nonces + 1)
    || Unused(s, branch)
    || (&& s.register.Some? && s.register.value.Marked? && s.register.value.branch == branch
        && s.register.value.items <= items)
  }

  lemma StoreRegister(s: Home, nonces: nat, branch: nat, deleted: bool, items: seq<Item>)
    requires LogOk(s) && Chain(s.log) && (s.register.Some? ==> Tip(s, s.register.value))
    requires MayStore(s, branch, items) && (deleted ==> items == [])
    requires s.nonces <= nonces && branch <= nonces + 1
    ensures var t := Store(s.(nonces := nonces), branch, deleted, items);
            LogOk(t) && Chain(t.log) && Tip(t, t.register.value)
  {
    var t := Store(s.(nonces := nonces), branch, deleted, items);
    assert t.log[|s.log|] == t.register.value;
    forall i | 0 <= i < |t.log| && t.log[i].branch == branch
      ensures t.log[i].items <= items
    {
      if i < |s.log| {
        assert t.log[i] == s.log[i];
      }
    }
    forall i, j | 0 <= i <= j < |t.log| && t.log[i].branch == t.log[j].branch
      ensures t.log[i].items <= t.log[j].items
    {
      if j < |s.log| {
        assert t.log[i] == s.log[i] && t.log[j] == s.log[j];
      }
    }
  }

  /** A client's phase outlives a write on a branch it does not hold for itself. */
  lemma PhaseKeeps(s: Home, t: Home, p: Phase)
    requires PhaseOk(s, p) && s.nonces <= t.nonces
    requires t.log == s.log || (exists raw: Stored :: t.log == s.log + [raw] && (Forked(p) ==> p.branch != raw.branch))
    ensures PhaseOk(t, p)
  {
    assert forall raw :: raw in s.log ==> raw in t.log;
  }

  /** The clients after one of them (or nobody) wrote on `branch` and went to `p`. */
  lemma ClientsKeep(s: Home, t: Home, c: Client, p: Phase, u: Home)
    requires ClientsOk(s) && s.nonces <= t.nonces && t.clients == s.clients
    requires t.log == s.log || exists raw: Stored :: t.log == s.log + [raw]
    requires forall d :: d in s.clients && d != c && Forked(s.clients[d]) && t.log != s.log ==>
               s.clients[d].branch != t.log[|s.log|].branch
    requires PhaseOk(t, p)
    requires forall d :: d in s.clients && d != c && Forked(s.clients[d]) && Forked(p) ==> s.clients[d].branch != p.branch
    requires u == Goto(t, c, p)
    ensures ClientsOk(u)
  {
    forall d | d in u.clients
      ensures PhaseOk(u, u.clients[d])
    {
      if d == c {
        PhaseKeeps(t, u, p);
      } else {
        PhaseKeeps(s, t, s.clients[d]);
        PhaseKeeps(t, u, s.clients[d]);
      }
    }
  }

  /** A write by nobody in particular, on a branch drawn for it. */
  lemma StoreFreshKeeps(s: Home, deleted: bool, items: seq<Item>)
    requires Inv(s) && (deleted ==> items == [])
    ensures Inv(StoreFresh(s, deleted, items))
    ensures StoreFresh(s, deleted, items).nonces == s.nonces + 2
  {
    var t := StoreFresh(s, deleted, items);
    StoreRegister(s, s.nonces + 1, s.nonces + 1, deleted, items);
    forall d | d in t.clients
      ensures PhaseOk(t, t.clients[d])
    {
      assert PhaseOk(s, s.clients[d]);
      PhaseKeeps(s, t, s.clients[d]);
    }
  }

  /**
   * A successful swap replaced exactly the value its snapshot read, or extended a
   * live value on the snapshot's branch and stayed on that branch.
   */
  ghost predicate SwapIsFair(s: Home, c: Client)
    requires PhaseOf(s, c).Swapping?
  {
    var p := PhaseOf(s, c);
    || s.register == p.snap.raw
    || (&& s.register.Some? && s.register.value.Marked? && !s.register.value.deleted
        && s.register.value.branch == p.snap.branch == p.branch
        && s.register.value.items <= p.items)
  }

  lemma SwapKeeps(s: Home, c: Client)
    requires Inv(s) && PhaseOf(s, c).Swapping? && s.register == PhaseOf(s, c).expected
    ensures Inv(Next(s, Swap(c)))
    ensures SwapIsFair(s, c)
    ensures PhaseOf(s, c).branch != PhaseOf(s, c).snap.branch ==> Unused(s, PhaseOf(s, c).branch)
  {
    var p := PhaseOf(s, c);
    assert PhaseOk(s, p);
    StoreRegister(s, s.nonces, p.branch, false, p.items);
    var t := Store(s, p.branch, false, p.items);
    PhaseKeeps(s, t, Holding(p.snap));
    ClientsKeep(s, t, c, Holding(p.snap), Next(s, Swap(c)));
  }

  /** A retry means the register moved along the snapshot's branch, so its items extend the snapshot. */
  lemma RereadKeeps(s: Home, c: Client)
    requires Inv(s) && PhaseOf(s, c).Rereading?
    ensures Inv(Next(s, Reread(c)))
  {
    var p := PhaseOf(s, c);
    assert PhaseOk(s, p);
    var u := Next(s, Reread(c));
    ClientsKeep(s, s, c, PhaseOf(u, c), u);
  }

  lemma BeginReplaceKeeps(s: Home, c: Client, items: seq<Item>)
    requires Inv(s) && PhaseOf(s, c).Holding?
    ensures Inv(Next(s, BeginReplace(c, items)))
  {
    var p := PhaseOf(s, c);
    assert PhaseOk(s, p);
    var u := Next(s, BeginReplace(c, items));
    var t := s.(nonces := u.nonces);
    forall d | d in s.clients && Forked(s.clients[d])
      ensures s.clients[d].branch <= s.nonces
    {
      assert PhaseOk(s, s.clients[d]);
    }
    ClientsKeep(s, t, c, PhaseOf(u, c), u);
  }

  /** One client moves on without storing anything. */
  lemma MoveKeeps(s: Home, c: Client, p: Phase, nonces: nat)
    requires Inv(s) && s.nonces <= nonces && PhaseOk(s, p)
    requires Forked(p) ==> Forked(PhaseOf(s, c)) && PhaseOf(s, c).branch == p.branch
    ensures Inv(Goto(s.(nonces := nonces), c, p))
  {
    PhaseKeeps(s, s.(nonces := nonces), p);
    ClientsKeep(s, s.(nonces := nonces), c, p, Goto(s.(nonces := nonces), c, p));
  }

  lemma LoadKeeps(s: Home, a: Action)
    requires Inv(s) && (a.BeginLoad? || a.Read? || a.Reserve?)
    ensures Inv(Next(s, a))
  {
    var c := a.c;
    if Next(s, a) == s {
    } else if a.Reserve? && s.register.None? {
      StoreFreshKeeps(s, true, []);
      var t := StoreFresh(s, true, []);
      MoveKeeps(t, c, Holding(SnapshotOf(t.register.value)), t.nonces);
    } else {
      MoveKeeps(s, c, PhaseOf(Next(s, a), c), s.nonces);
    }
  }

  lemma SwapMissKeeps(s: Home, c: Client)
    requires Inv(s) && PhaseOf(s, c).Swapping? && s.register != PhaseOf(s, c).expected
    ensures Inv(Next(s, Swap(c)))
  {
    var p := PhaseOf(s, c);
    assert PhaseOk(s, p);
    MoveKeeps(s, c, Rereading(p.snap, p.items, p.branch, p.attempt), s.nonces + 1);
  }

  lemma FailKeeps(s: Home, c: Client)
    requires Inv(s)
    ensures Inv(Next(s, Fail(c)))
  {
    var p, t := PhaseOf(s, c), Next(s, Fail(c));
    assert PhaseOk(s, p);
    if t != s {
      MoveKeeps(s, c, PhaseOf(t, c), s.nonces);
    }
  }

  lemma NextKeeps(s: Home, a: Action)
    requires Inv(s)
    ensures Inv(Next(s, a))
  {
    match a
    case BeginLoad(_) => LoadKeeps(s, a);
    case Read(_) => LoadKeeps(s, a);
    case Reserve(_) => LoadKeeps(s, a);
    case BeginReplace(c, items) => if PhaseOf(s, c).Holding? { BeginReplaceKeeps(s, c, items); }
    case Swap(c) =>
      if PhaseOf(s, c).Swapping? {
        if s.register == PhaseOf(s, c).expected { SwapKeeps(s, c); } else { SwapMissKeeps(s, c); }
      }
    case Reread(c) => if PhaseOf(s, c).Rereading? { RereadKeeps(s, c); }
    case DeleteIf(_) => StoreFreshKeeps(s, true, []);
    case Fail(c) => FailKeeps(s, c);
    case Set(items) => StoreFreshKeeps(s, false, items);
    case Delete => StoreFreshKeeps(s, true, []);
    case ForeignSet(_, _) => ClientsSame(s, Next(s, a));
    case Expire => ClientsSame(s, Next(s, a));
  }

  lemma ClientsSame(s: Home, t: Home)
    requires ClientsOk(s) && t.clients == s.clients && t.log == s.log && s.nonces <= t.nonces
    ensures ClientsOk(t)
  {
    forall d | d in t.clients
      ensures PhaseOk(t, t.clients[d])
    {
      PhaseKeeps(s, t, s.clients[d]);
    }
  }

  lemma {:induction false} ExecInv(actions: seq<Action>)
    ensures Inv(Exec(actions))
  {
    if actions != [] {
      ExecInv(actions[..|actions| - 1]);
      NextKeeps(Exec(actions[..|actions| - 1]), actions[|actions| - 1]);
    }
  }

  // ------------------------------------------------------------- main results

  /** In every interleaving, every swap that succeeds is fair, and it opens a branch only if nobody has used it. */
  lemma EverySwapIsFair(actions: seq<Action>, c: Client)
    requires PhaseOf(Exec(actions), c).Swapping?
    requires Exec(actions).register == PhaseOf(Exec(actions), c).expected
    ensures SwapIsFair(Exec(actions), c)
    ensures var p := PhaseOf(Exec(actions), c);
            p.branch == p.snap.branch || Unused(Exec(actions), p.branch)
  {
    ExecInv(actions);
    SwapKeeps(Exec(actions), c);
  }

  /** A replace that has to retry always writes the snapshot's own branch. */
  lemma RetryNeverForks(actions: seq<Action>, c: Client)
    requires var p := PhaseOf(Exec(actions), c); p.Swapping? && p.attempt > 0
    ensures var p := PhaseOf(Exec(actions), c);
            p.branch == p.snap.branch && p.branch != 0 && p.snap.items <= p.items
  {
    ExecInv(actions);
    assert PhaseOk(Exec(actions), PhaseOf(Exec(actions), c));
  }

  /** Of two values ever stored on one branch, the earlier is a prefix of the later. */
  lemma BranchesAreChains(actions: seq<Action>, i: nat, j: nat)
    requires i <= j < |Exec(actions).log| && Exec(actions).log[i].branch == Exec(actions).log[j].branch
    ensures Exec(actions).log[i].items <= Exec(actions).log[j].items
  {
    ExecInv(actions);
  }

  lemma NextLog(s: Home, a: Action)
    ensures s.log <= Next(s, a).log
  {
  }

  /** The log of a longer run extends the log of the shorter one, so chains hold across time. */
  lemma {:induction false} LogGrows(actions: seq<Action>, more: seq<Action>)
    ensures Exec(actions).log <= Exec(actions + more).log
  {
    if more == [] {
      assert actions + more == actions;
    } else {
      var init := actions + more[..|more| - 1];
      assert init == (actions + more)[..|actions + more| - 1];
      LogGrows(actions, more[..|more| - 1]);
      NextLog(Exec(init), more[|more| - 1]);
    }
  }
}

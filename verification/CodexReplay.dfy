/**
 * The Codex replay state of one session: a list of items in which markers begin
 * turns.  Completed turns are appended, old ones trimmed away, and any number of
 * clients append to one shared register by compare-and-swap.
 */
module CodexReplay {
  import opened Wrappers

  /** A serialized item, with what its JSON says: whether it marks a turn, and which. */
  datatype Item = Item(bytes: string, marker: bool, id: string)

  const MAX_TURNS: nat := 256
  const MAX_BYTES: nat := 0x100_0000

  // ----------------------------------------------------------------- trimming

  function Bytes(items: seq<Item>): nat {
    if items == [] then 0 else Bytes(items[..|items| - 1]) + |items[|items| - 1].bytes|
  }

  /** The number of turns: the first item begins one whatever it is. */
  function Turns(items: seq<Item>): nat {
    if |items| <= 1 then 1 else Turns(items[..|items| - 1]) + if items[|items| - 1].marker then 1 else 0
  }

  predicate Fits(items: seq<Item>) {
    Turns(items) <= MAX_TURNS && Bytes(items) <= MAX_BYTES
  }

  /** How a list is judged to be within bounds; the code's way is `Fits`. */
  type Bound = seq<Item> -> bool

  predicate TurnStart(items: seq<Item>, k: nat) {
    k == 0 || (k < |items| && items[k].marker)
  }

  /** The longest suffix of whole turns within both bounds; nothing if even the last turn is too large. */
  ghost predicate IsTrimmed(fits: Bound, items: seq<Item>, out: seq<Item>) {
    || (exists k: nat :: k <= |items| && IsTrimmedAt(fits, items, k, out))
    || (out == [] && forall j: nat :: j < |items| && TurnStart(items, j) ==> !fits(items[j..]))
  }

  ghost predicate IsTrimmedAt(fits: Bound, items: seq<Item>, k: nat, out: seq<Item>)
    requires k <= |items|
  {
    TurnStart(items, k) && out == items[k..] && fits(out) && forall j: nat :: j < k && TurnStart(items, j) ==> !fits(items[j..])
  }

  /** The start of the second turn, or the end. */
  function SecondTurn(items: seq<Item>, i: nat): (k: nat)
    requires 0 < i <= |items|
    ensures i <= k <= |items| && (k < |items| ==> items[k].marker)
    ensures forall j :: i <= j < k ==> !items[j].marker
    decreases |items| - i
  {
    if i == |items| || items[i].marker then i else SecondTurn(items, i + 1)
  }

  function TrimmedTo(fits: Bound, items: seq<Item>): seq<Item>
    decreases |items|
  {
    if fits(items) || items == [] then items
    else TrimmedTo(fits, items[SecondTurn(items, 1)..])
  }

  function Trimmed(items: seq<Item>): seq<Item> {
    TrimmedTo(Fits, items)
  }

  lemma TrimLater(fits: Bound, items: seq<Item>, next: nat, k: nat, out: seq<Item>)
    requires 0 < next <= |items| && next == SecondTurn(items, 1) && !fits(items)
    requires k <= |items| - next && IsTrimmedAt(fits, items[next..], k, out) && (k == 0 ==> next < |items|)
    ensures IsTrimmedAt(fits, items, next + k, out)
  {
    var rest := items[next..];
    assert rest[k..] == items[next + k..];
    forall j: nat | j < next + k && TurnStart(items, j)
      ensures !fits(items[j..])
    {
      if j == 0 {
        assert items[0..] == items;
      } else {
        assert j >= next;
        assert TurnStart(rest, j - next) && rest[j - next..] == items[j..];
      }
    }
  }

  lemma NoneLater(fits: Bound, items: seq<Item>, next: nat, j: nat)
    requires 0 < next <= |items| && next == SecondTurn(items, 1) && !fits(items)
    requires forall i: nat :: i < |items| - next && TurnStart(items[next..], i) ==> !fits(items[next..][i..])
    requires j < |items| && TurnStart(items, j)
    ensures !fits(items[j..])
  {
    if j == 0 {
      assert items[0..] == items;
    } else {
      assert j >= next;
      assert TurnStart(items[next..], j - next) && items[next..][j - next..] == items[j..];
    }
  }

  lemma {:induction false} TrimIsLongest(fits: Bound, items: seq<Item>)
    requires fits([])
    ensures IsTrimmed(fits, items, TrimmedTo(fits, items))
    decreases |items|
  {
    if fits(items) || items == [] {
      assert items[0..] == items;
      assert IsTrimmedAt(fits, items, 0, items);
    } else {
      var next := SecondTurn(items, 1);
      var rest := items[next..];
      var out := TrimmedTo(fits, rest);
      TrimIsLongest(fits, rest);
      if next < |items| && exists k: nat :: k <= |rest| && IsTrimmedAt(fits, rest, k, out) {
        var k: nat :| k <= |rest| && IsTrimmedAt(fits, rest, k, out);
        TrimLater(fits, items, next, k, out);
      } else {
        assert next == |items| ==> rest == [] && out == [];
        forall j: nat | j < |items| && TurnStart(items, j)
          ensures !fits(items[j..])
        {
          NoneLater(fits, items, next, j);
        }
      }
    }
  }

  lemma {:induction false} TrimFits(fits: Bound, items: seq<Item>)
    requires fits([])
    ensures fits(TrimmedTo(fits, items)) && |TrimmedTo(fits, items)| <= |items|
    decreases |items|
  {
    if !(fits(items) || items == []) {
      TrimFits(fits, items[SecondTurn(items, 1)..]);
    }
  }

  method Trim(given: seq<Item>) returns (items: seq<Item>)
    ensures items == Trimmed(given)
  {
    items := given;
    while true
      invariant Trimmed(items) == Trimmed(given)
      decreases |items|
    {
      var turns, total, second := 1, 0, |items|;
      for i := 0 to |items|
        invariant turns == (if i == 0 then 1 else Turns(items[..i])) && total == Bytes(items[..i])
        invariant 0 < i ==> second == if SecondTurn(items, 1) < i then SecondTurn(items, 1) else |items|
        invariant i == 0 ==> second == |items|
        invariant turns <= 1 <==> second == |items|
      {
        assert items[..i + 1][..i] == items[..i];
        total := total + |items[i].bytes|;
        if i > 0 && items[i].marker {
          turns := turns + 1;
          if second == |items| {
            second := i;
          }
        }
      }
      assert items[..|items|] == items;
      if turns <= MAX_TURNS && total <= MAX_BYTES {
        return;
      }
      if turns <= 1 {
        TrimSingle(items);
        return [];
      }
      items := items[second..];
    }
  }

  /** A single turn that is too large leaves nothing. */
  lemma TrimSingle(items: seq<Item>)
    requires !Fits(items) && items != [] && SecondTurn(items, 1) == |items|
    ensures Trimmed(items) == []
  {
    assert items[SecondTurn(items, 1)..] == [];
    assert TrimmedTo(Fits, []) == [];
  }

  // ---------------------------------------------------------------- appending

  predicate HasTurn(items: seq<Item>, id: string) {
    exists i :: 0 <= i < |items| && items[i].marker && items[i].id == id
  }

  function TurnId(turn: seq<Item>): string {
    if turn != [] && turn[0].marker then turn[0].id else ""
  }

  /** State without a leading marker is from before there were turns, and is forgotten. */
  function Known(existing: seq<Item>): seq<Item> {
    if existing != [] && !existing[0].marker then [] else existing
  }

  function Appended(existing: seq<Item>, turn: seq<Item>): seq<Item> {
    var known := Known(existing);
    if TurnId(turn) != "" && HasTurn(known, TurnId(turn)) then Trimmed(known) else Trimmed(known + turn)
  }

  method AppendTurn(given: seq<Item>, turn: seq<Item>) returns (out: seq<Item>)
    ensures out == Appended(given, turn)
  {
    var existing := given;
    if |existing| > 0 && !existing[0].marker {
      existing := [];
    }
    var turnId := "";
    if |turn| > 0 && turn[0].marker {
      turnId := turn[0].id;
    }
    if turnId != "" {
      for i := 0 to |existing|
        invariant forall j :: 0 <= j < i ==> !(existing[j].marker && existing[j].id == turnId)
      {
        if existing[i].marker && existing[i].id == turnId {
          out := Trim(existing);
          return;
        }
      }
    }
    out := Trim(existing + turn);
  }

  /** What is left after trimming begins as a turn does. */
  lemma {:induction false} TrimmedBegins(fits: Bound, items: seq<Item>)
    requires items != [] && items[0].marker
    ensures var out := TrimmedTo(fits, items); out != [] ==> out[0].marker
    decreases |items|
  {
    if !fits(items) {
      var next := SecondTurn(items, 1);
      if next < |items| {
        TrimmedBegins(fits, items[next..]);
      } else {
        assert items[next..] == [];
      }
    }
  }

  /**
   * The newest turn is kept whole if it is in bounds itself, and with it as many of
   * the turns before it as fit.
   */
  lemma NewestTurnIsKept(existing: seq<Item>, turn: seq<Item>)
    requires turn != [] && turn[0].marker && Fits(turn) && !(TurnId(turn) != "" && HasTurn(Known(existing), TurnId(turn)))
    ensures var all, out := Known(existing) + turn, Appended(existing, turn);
            && |turn| <= |out| && out[|out| - |turn|..] == turn
            && exists k: nat :: k <= |all| && IsTrimmedAt(Fits, all, k, out)
  {
    SuffixIsKept(Fits, Known(existing), turn);
  }

  lemma SuffixIsKept(fits: Bound, known: seq<Item>, turn: seq<Item>)
    requires turn != [] && turn[0].marker && fits(turn) && fits([])
    ensures var all, out := known + turn, TrimmedTo(fits, known + turn);
            && |turn| <= |out| && out[|out| - |turn|..] == turn
            && exists k: nat :: k <= |all| && IsTrimmedAt(fits, all, k, out)
  {
    var all, n := known + turn, |known|;
    var out := TrimmedTo(fits, all);
    TrimIsLongest(fits, all);
    assert all[n..] == turn && TurnStart(all, n);
    LongSuffix(fits, all, n, out);
  }

  /** A trimmed list has every suffix of whole turns that fits. */
  lemma LongSuffix(fits: Bound, all: seq<Item>, n: nat, out: seq<Item>)
    requires IsTrimmed(fits, all, out) && n < |all| && TurnStart(all, n) && fits(all[n..])
    ensures |all| - n <= |out| && out[|out| - (|all| - n)..] == all[n..]
    ensures exists k: nat :: k <= |all| && IsTrimmedAt(fits, all, k, out)
  {
    assert exists k: nat :: k <= |all| && IsTrimmedAt(fits, all, k, out);
    var k: nat :| k <= |all| && IsTrimmedAt(fits, all, k, out);
    assert k <= n;
    assert all[k..][n - k..] == all[n..];
  }

  // -------------------------------------------------------- the shared register

  type Value = Option<seq<Item>>

  /** What has been done to the register, in order. */
  datatype Op = Append(call: nat, turn: seq<Item>) | Set(items: seq<Item>) | Delete

  function ItemsOf(v: Value): seq<Item> {
    if v.Some? then v.value else []
  }

  function Apply(v: Value, op: Op): Value {
    match op
    case Append(_, turn) => Some(Appended(ItemsOf(v), turn))
    case Set(items) => Some(items)
    case Delete => None
  }

  function Replay(log: seq<Op>): Value {
    if log == [] then None else Apply(Replay(log[..|log| - 1]), log[|log| - 1])
  }

  datatype Phase = Reading | Swapping(seen: Value) | Returned(ok: bool)

  /** One call of append by some client, at one of its attempts. */
  datatype Call = Call(turn: seq<Item>, phase: Phase, attempt: nat)

  const MAX_ATTEMPTS: nat := 32

  datatype State = State(register: Value, log: seq<Op>, calls: map<nat, Call>)

  const INIT: State := State(None, [], map[])

  /**
   * A call begins with the items it is given, trimmed (none left is a failure),
   * reads, swaps, or gives up on an error; an error of the swap itself may come after
   * it took effect.  Besides, the value is overwritten, deleted, or expires.
   */
  datatype Action =
    | Begin(call: nat, given: seq<Item>) | Read(call: nat) | Swap(call: nat)
    | GiveUp(call: nat) | SwapLost(call: nat)
    | Overwrite(given: seq<Item>) | Forget

  function AfterSwap(s: State, id: nat, c: Call, ok: bool): State
    requires c.phase.Swapping?
  {
    s.(register := Some(Appended(ItemsOf(c.phase.seen), c.turn)), log := s.log + [Append(id, c.turn)],
       calls := s.calls[id := c.(phase := Returned(ok))])
  }

  function Next(s: State, a: Action): State {
    match a
    case Begin(id, given) =>
      if id in s.calls then s
      else s.(calls := s.calls[id := Call(Trimmed(given), if Trimmed(given) == [] then Returned(false) else Reading, 0)])
    case Read(id) =>
      if id in s.calls && s.calls[id].phase.Reading? then s.(calls := s.calls[id := s.calls[id].(phase := Swapping(s.register))]) else s
    case Swap(id) =>
      if !(id in s.calls && s.calls[id].phase.Swapping?) then s
      else
        var c := s.calls[id];
        if s.register == c.phase.seen then AfterSwap(s, id, c, true)
        else if c.attempt + 1 < MAX_ATTEMPTS then s.(calls := s.calls[id := c.(phase := Reading, attempt := c.attempt + 1)])
        else s.(calls := s.calls[id := c.(phase := Returned(false), attempt := c.attempt + 1)])
    case GiveUp(id) =>
      if id in s.calls && !s.calls[id].phase.Returned? then s.(calls := s.calls[id := s.calls[id].(phase := Returned(false))]) else s
    case SwapLost(id) =>
      if id in s.calls && s.calls[id].phase.Swapping? && s.register == s.calls[id].phase.seen then AfterSwap(s, id, s.calls[id], false) else s
    case Overwrite(given) =>
      if Trimmed(given) == [] then s else s.(register := Some(Trimmed(given)), log := s.log + [Set(Trimmed(given))])
    case Forget => s.(register := None, log := s.log + [Delete])
  }

  function Exec(actions: seq<Action>): State {
    if actions == [] then INIT else Next(Exec(actions[..|actions| - 1]), actions[|actions| - 1])
  }

  function Count(log: seq<Op>, id: nat): nat {
    if log == [] then 0
    else
      var op := log[|log| - 1];
      Count(log[..|log| - 1], id) + if op.Append? && op.call == id then 1 else 0
  }

  ghost predicate CallInv(s: State, id: nat) {
    if id !in s.calls then Count(s.log, id) == 0
    else
      && s.calls[id].attempt <= MAX_ATTEMPTS
      && match s.calls[id].phase
         case Returned(ok) => (if ok then Count(s.log, id) == 1 else Count(s.log, id) <= 1)
         case _ => s.calls[id].attempt < MAX_ATTEMPTS && Count(s.log, id) == 0
  }

  ghost predicate Inv(s: State) {
    s.register == Replay(s.log) && forall id :: CallInv(s, id)
  }

  lemma Logged(log: seq<Op>, op: Op)
    ensures Replay(log + [op]) == Apply(Replay(log), op)
    ensures forall id :: Count(log + [op], id) == Count(log, id) + if op.Append? && op.call == id then 1 else 0
  {
    assert (log + [op])[..|log|] == log;
  }

  lemma NextKeeps(s: State, a: Action)
    requires Inv(s)
    ensures Inv(Next(s, a))
  {
    var t := Next(s, a);
    if |t.log| > |s.log| {
      Logged(s.log, t.log[|s.log|]);
      assert t.log == s.log + [t.log[|s.log|]];
    }
    forall id
      ensures CallInv(t, id)
    {
      assert CallInv(s, id);
    }
  }

  lemma {:induction false} ExecInv(actions: seq<Action>)
    ensures Inv(Exec(actions))
  {
    if actions != [] {
      ExecInv(actions[..|actions| - 1]);
      NextKeeps(Exec(actions[..|actions| - 1]), actions[|actions| - 1]);
    }
  }

  /**
   * Concurrent appends linearize: in every run the register is the outcome of some
   * appends, overwrites and deletions one after another, in which every append that
   * returned true occurs exactly once, and every other at most once.
   */
  lemma AppendsLinearize(actions: seq<Action>, id: nat)
    ensures var s := Exec(actions);
            && s.register == Replay(s.log)
            && Count(s.log, id) <= 1
            && (id in s.calls && s.calls[id].phase == Returned(true) ==> Count(s.log, id) == 1)
  {
    ExecInv(actions);
    assert CallInv(Exec(actions), id);
  }

  /** An append takes effect only while its call is running, and with the turn of that call. */
  lemma EffectsWhileRunning(s: State, a: Action, id: nat)
    requires Inv(s) && Count(Next(s, a).log, id) > Count(s.log, id)
    ensures id in s.calls && s.calls[id].phase == Swapping(s.register)
    ensures Next(s, a).log == s.log + [Append(id, s.calls[id].turn)]
  {
    match a
    case Swap(call) => EffectOfSwap(s, call, id);
    case SwapLost(call) => EffectOfSwap(s, call, id);
    case Overwrite(given) => Logged(s.log, Set(Trimmed(given)));
    case Forget => Logged(s.log, Delete);
    case _ =>
  }

  lemma EffectOfSwap(s: State, call: nat, id: nat)
    ensures call in s.calls && s.calls[call].phase.Swapping? ==>
              Count(s.log + [Append(call, s.calls[call].turn)], id) == Count(s.log, id) + if call == id then 1 else 0
  {
    if call in s.calls {
      Logged(s.log, Append(call, s.calls[call].turn));
    }
  }

  // ------------------------------------------------- what the register can hold

  /** In every run the register is within both bounds. */
  lemma {:induction false} RegisterFits(actions: seq<Action>)
    ensures Exec(actions).register.Some? ==> Fits(Exec(actions).register.value)
  {
    if actions != [] {
      RegisterFits(actions[..|actions| - 1]);
      StepFits(Exec(actions[..|actions| - 1]), actions[|actions| - 1]);
    }
  }

  lemma StepFits(s: State, a: Action)
    requires s.register.Some? ==> Fits(s.register.value)
    ensures var t := Next(s, a); t.register.Some? ==> Fits(t.register.value)
  {
    forall items
      ensures Fits(Trimmed(items))
    {
      assert Fits([]);
      TrimFits(Fits, items);
    }
  }

  predicate MarkerFirst(items: seq<Item>) {
    items != [] && items[0].marker
  }

  /** All that is to be stored begins with a marker, as a completed turn does. */
  ghost predicate GivesTurns(actions: seq<Action>) {
    forall a :: a in actions && (a.Begin? || a.Overwrite?) ==> MarkerFirst(a.given)
  }

  /** What is there begins with a marker, and so does what is being added, unless it was too large. */
  ghost predicate Marked(s: State) {
    && (s.register.Some? && s.register.value != [] ==> MarkerFirst(s.register.value))
    && (forall id :: id in s.calls && s.calls[id].turn != [] ==> MarkerFirst(s.calls[id].turn))
    && (forall id :: id in s.calls && s.calls[id].turn == [] ==> s.calls[id].phase == Returned(false))
  }

  lemma StepMarked(s: State, a: Action)
    requires Marked(s) && (a.Begin? || a.Overwrite? ==> MarkerFirst(a.given))
    ensures Marked(Next(s, a))
  {
    match a
    case Begin(_, given) => TrimmedBegins(Fits, given);
    case Overwrite(given) => TrimmedBegins(Fits, given);
    case Swap(id) => SwapMarked(s, id);
    case SwapLost(id) => SwapMarked(s, id);
    case _ =>
  }

  lemma SwapMarked(s: State, id: nat)
    requires Marked(s)
    ensures id in s.calls && s.calls[id].phase.Swapping? ==>
              forall seen :: Appended(seen, s.calls[id].turn) != [] ==> MarkerFirst(Appended(seen, s.calls[id].turn))
  {
    if id in s.calls && s.calls[id].phase.Swapping? {
      var turn := s.calls[id].turn;
      forall seen
        ensures Appended(seen, turn) != [] ==> MarkerFirst(Appended(seen, turn))
      {
        AppendedBegins(seen, turn);
      }
    }
  }

  lemma AppendedBegins(seen: seq<Item>, turn: seq<Item>)
    requires MarkerFirst(turn)
    ensures Appended(seen, turn) != [] ==> MarkerFirst(Appended(seen, turn))
  {
    var known := Known(seen);
    TrimmedBegins(Fits, known + turn);
    if known != [] {
      TrimmedBegins(Fits, known);
    }
  }

  lemma {:induction false} RegisterMarked(actions: seq<Action>)
    requires GivesTurns(actions)
    ensures Marked(Exec(actions))
  {
    if actions != [] {
      var a := actions[|actions| - 1];
      assert a in actions && forall b :: b in actions[..|actions| - 1] ==> b in actions;
      RegisterMarked(actions[..|actions| - 1]);
      StepMarked(Exec(actions[..|actions| - 1]), a);
    }
  }

  /**
   * Appending a turn that is there already changes nothing, in any run, just when the
   * register begins with a marker.
   */
  lemma PresentTurnIsNoOp(actions: seq<Action>, turn: seq<Item>)
    requires Exec(actions).register.Some? && TurnId(turn) != "" && HasTurn(Exec(actions).register.value, TurnId(turn))
    ensures var existing := Exec(actions).register.value; Appended(existing, turn) == existing <==> MarkerFirst(existing)
  {
    var existing := Exec(actions).register.value;
    RegisterFits(actions);
    if !existing[0].marker {
      assert [] + turn == turn;
      TrimmedBegins(Fits, turn);
    }
  }

  /** It always does where only turns are stored, as the executor does. */
  lemma PresentTurnIsKept(actions: seq<Action>, turn: seq<Item>)
    requires GivesTurns(actions)
    requires Exec(actions).register.Some? && TurnId(turn) != "" && HasTurn(Exec(actions).register.value, TurnId(turn))
    ensures Appended(Exec(actions).register.value, turn) == Exec(actions).register.value
  {
    RegisterMarked(actions);
    PresentTurnIsNoOp(actions, turn);
  }

  /** An overwrite may store items before the first turn; appending that turn once more forgets them. */
  lemma LooseItemIsForgotten(loose: Item, marker: Item)
    requires !loose.marker && marker.marker && marker.id != "" && |loose.bytes| + |marker.bytes| <= MAX_BYTES
    ensures var s := Exec([Overwrite([loose, marker])]);
            s.register == Some([loose, marker]) && Appended([loose, marker], [marker]) == [marker]
  {
    var items := [loose, marker];
    assert [Overwrite(items)][..0] == [];
    TwoFit(loose, marker);
    assert Known(items) + [marker] == [marker];
  }

  lemma TwoFit(a: Item, b: Item)
    requires |a.bytes| + |b.bytes| <= MAX_BYTES
    ensures Fits([a, b]) && Fits([b])
  {
    assert [a, b][..1] == [a] && [a][..0] == [] && [b][..0] == [];
    assert Bytes([b]) == |b.bytes| && Bytes([a]) == |a.bytes| && Bytes([a, b]) == Bytes([a]) + |b.bytes|;
  }
}

/**
 * Reading back from the shared Codex register: what a swap or an overwrite leaves there
 * is what the next read sees.
 */
module CodexReads {
  import opened CodexReplay
  import opened Wrappers

  lemma ExecSnoc(actions: seq<Action>, a: Action)
    ensures Exec(actions + [a]) == Next(Exec(actions), a)
  {
    assert (actions + [a])[..|actions|] == actions;
  }

  ghost predicate IsReading(s: State, id: nat) {
    id in s.calls && s.calls[id].phase.Reading?
  }

  /** What a call sees of the register that reads it now. */
  lemma ReadsRegister(actions: seq<Action>, id: nat)
    requires IsReading(Exec(actions), id)
    ensures var s := Exec(actions + [Read(id)]);
            id in s.calls && s.calls[id].phase == Swapping(Exec(actions).register) && s.register == Exec(actions).register
  {
    ExecSnoc(actions, Read(id));
  }

  /** The value that a call has seen is still there. */
  ghost predicate MaySwap(s: State, id: nat) {
    id in s.calls && s.calls[id].phase == Swapping(s.register)
  }

  /** In every run a call's turn is within both bounds. */
  lemma {:induction false} TurnsFit(actions: seq<Action>, id: nat)
    requires id in Exec(actions).calls
    ensures Fits(Exec(actions).calls[id].turn)
  {
    if actions != [] {
      var s, a := Exec(actions[..|actions| - 1]), actions[|actions| - 1];
      if id in s.calls {
        TurnsFit(actions[..|actions| - 1], id);
      } else {
        assert a.Begin? && a.call == id;
        assert Fits([]);
        TrimFits(Fits, a.given);
      }
    }
  }

  /** The items of a register that begins with a turn. */
  function Turned(v: Value): seq<Item> {
    if v.Some? && MarkerFirst(v.value) then v.value else []
  }

  /** No turn has the id of the new one, or it has none. */
  predicate IsNew(items: seq<Item>, marker: Item) {
    marker.id == "" || forall i :: 0 <= i < |items| ==> !(items[i].marker && items[i].id == marker.id)
  }

  /** The turn is there, whole and last, behind what was, less as many of the oldest turns as the bounds demand. */
  ghost predicate Joins(was: seq<Item>, turn: seq<Item>, out: seq<Item>) {
    && |turn| <= |out| && out[|out| - |turn|..] == turn
    && exists k: nat :: k <= |was + turn| && IsTrimmedAt(Fits, was + turn, k, out)
  }

  lemma NewTurnJoins(v: Value, turn: seq<Item>)
    requires MarkerFirst(turn) && Fits(turn) && IsNew(Turned(v), turn[0])
    ensures Joins(Turned(v), turn, Appended(ItemsOf(v), turn))
  {
    KnownIs(v);
    NotThere(Turned(v), turn[0]);
    NewestTurnIsKept(ItemsOf(v), turn);
  }

  lemma KnownIs(v: Value)
    ensures Known(ItemsOf(v)) == Turned(v)
  {
  }

  lemma NotThere(items: seq<Item>, marker: Item)
    requires IsNew(items, marker)
    ensures marker.id == "" || !HasTurn(items, marker.id)
  {
  }

  /**
   * A swap that finds what its call has seen returns true and leaves in the register
   * the call's turn behind what was there, if no turn with its id was.
   */
  lemma SwapStoresTurn(actions: seq<Action>, id: nat)
    requires MaySwap(Exec(actions), id) && MarkerFirst(Exec(actions).calls[id].turn)
    requires IsNew(Turned(Exec(actions).register), Exec(actions).calls[id].turn[0])
    ensures var s, t := Exec(actions), Exec(actions + [Swap(id)]);
            && id in t.calls && t.calls[id].phase == Returned(true) && t.register.Some?
            && Joins(Turned(s.register), s.calls[id].turn, t.register.value)
  {
    TurnsFit(actions, id);
    ExecSnoc(actions, Swap(id));
    NewTurnJoins(Exec(actions).register, Exec(actions).calls[id].turn);
  }

  /** A swap of a turn that is there already returns true and leaves a register that begins with a marker as it was. */
  lemma SwapKeepsPresentTurn(actions: seq<Action>, id: nat)
    requires MaySwap(Exec(actions), id) && Exec(actions).register.Some? && MarkerFirst(Exec(actions).register.value)
    requires MarkerFirst(Exec(actions).calls[id].turn) && !IsNew(Exec(actions).register.value, Exec(actions).calls[id].turn[0])
    ensures var t := Exec(actions + [Swap(id)]);
            id in t.calls && t.calls[id].phase == Returned(true) && t.register == Exec(actions).register
  {
    ExecSnoc(actions, Swap(id));
    PresentTurnIsNoOp(actions, Exec(actions).calls[id].turn);
  }

  /** A swap that finds something else stores nothing. */
  lemma LostSwapStoresNothing(actions: seq<Action>, id: nat)
    requires id in Exec(actions).calls && Exec(actions).calls[id].phase.Swapping? && !MaySwap(Exec(actions), id)
    ensures var t := Exec(actions + [Swap(id)]);
            t.register == Exec(actions).register && id in t.calls && (t.calls[id].phase.Reading? || t.calls[id].phase == Returned(false))
  {
    ExecSnoc(actions, Swap(id));
  }

  /** An overwrite that is in bounds is read back as it is; after a deletion nothing is. */
  lemma OverwriteReadsBack(actions: seq<Action>, items: seq<Item>)
    requires items != [] && Fits(items)
    ensures Exec(actions + [Overwrite(items)]).register == Some(items) && Exec(actions + [Forget]).register == None
  {
    ExecSnoc(actions, Overwrite(items));
    ExecSnoc(actions, Forget);
  }

  /** The bounds. */
  lemma BoundsAre(items: seq<Item>)
    ensures Fits(items) <==> Turns(items) <= 256 && Bytes(items) <= 16 * 1024 * 1024
  {
  }

  /** The bytes and turns of a list, written out. */
  lemma {:induction false} SizesAdd(a: seq<Item>, b: seq<Item>)
    ensures Bytes(a + b) == Bytes(a) + Bytes(b)
    ensures a != [] && b != [] ==> Turns(a + b) == Turns(a) + Turns(b) - if b[0].marker then 0 else 1
    ensures forall i: Item :: Bytes([i]) == |i.bytes| && Turns([i]) == 1
    decreases |b|
  {
    forall i: Item
      ensures Bytes([i]) == |i.bytes|
    {
      assert [i][..0] == [];
    }
    if b == [] {
      assert a + b == a;
    } else {
      var rest := b[..|b| - 1];
      assert (a + b)[..|a + b| - 1] == a + rest;
      SizesAdd(a, rest);
      if rest == [] {
        assert a + rest == a && b == [b[0]];
      }
    }
  }
}

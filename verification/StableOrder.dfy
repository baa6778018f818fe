/**
 * Ordering lines by a list of wanted names: all lines with the first name, then
 * all with the second, and so on; lines with no wanted name come last.  `named`
 * says whether a line bears a name.
 */
module StableOrder {

  /** The lines that bear a name, or those that do not, in their order. */
  function Pick<L, N>(lines: seq<L>, named: (L, N) -> bool, name: N, want: bool): seq<L> {
    if lines == [] then []
    else (if named(lines[0], name) == want then [lines[0]] else []) + Pick(lines[1..], named, name, want)
  }

  function OrderLines<L, N>(lines: seq<L>, named: (L, N) -> bool, names: seq<N>): seq<L>
    decreases |names|
  {
    if names == [] then lines
    else
      Pick(lines, named, names[0], true)
      + OrderLines(Pick(lines, named, names[0], false), named, names[1..])
  }

  // ----------------------------------------------- the loops over a `used` array

  /** The lines not yet taken. */
  ghost function Left<L>(lines: seq<L>, used: seq<bool>): seq<L>
    requires |lines| == |used|
  {
    if lines == [] then []
    else (if used[0] then [] else [lines[0]]) + Left(lines[1..], used[1..])
  }

  lemma {:induction false} LeftSnoc<L>(lines: seq<L>, used: seq<bool>, l: L, u: bool)
    requires |lines| == |used|
    ensures Left(lines + [l], used + [u]) == Left(lines, used) + (if u then [] else [l])
  {
    if lines == [] {
      assert (lines + [l])[1..] == [] && (used + [u])[1..] == [];
    } else {
      LeftSnoc(lines[1..], used[1..], l, u);
      assert (lines + [l])[0] == lines[0] && (lines + [l])[1..] == lines[1..] + [l];
      assert (used + [u])[0] == used[0] && (used + [u])[1..] == used[1..] + [u];
    }
  }

  lemma {:induction false} NothingUsed<L>(lines: seq<L>, used: seq<bool>)
    requires |lines| == |used| && forall i :: 0 <= i < |used| ==> !used[i]
    ensures Left(lines, used) == lines
  {
    if lines != [] {
      NothingUsed(lines[1..], used[1..]);
    }
  }

  lemma {:induction false} PickSnoc<L, N>(lines: seq<L>, named: (L, N) -> bool, name: N, want: bool, l: L)
    ensures Pick(lines + [l], named, name, want)
         == Pick(lines, named, name, want) + (if named(l, name) == want then [l] else [])
  {
    if lines == [] {
      assert (lines + [l])[1..] == [];
    } else {
      PickSnoc(lines[1..], named, name, want, l);
      assert (lines + [l])[1..] == lines[1..] + [l];
    }
  }

  /** What one line does to the pass for one name. */
  lemma PassSnoc<L, N>(lines: seq<L>, was: seq<bool>, now: seq<bool>, named: (L, N) -> bool, name: N, l: L, u: bool, v: bool)
    requires |lines| == |was| == |now|
    requires v == (u || named(l, name))
    requires Left(lines, now) == Pick(Left(lines, was), named, name, false)
    ensures Left(lines + [l], now + [v]) == Pick(Left(lines + [l], was + [u]), named, name, false)
    ensures Pick(Left(lines + [l], was + [u]), named, name, true)
         == Pick(Left(lines, was), named, name, true) + (if u == v then [] else [l])
  {
    var kept := Left(lines, was);
    LeftSnoc(lines, was, l, u);
    LeftSnoc(lines, now, l, v);
    if u {
      assert kept + [] == kept;
    } else {
      PickSnoc(kept, named, name, true, l);
      PickSnoc(kept, named, name, false, l);
    }
  }

  /** One pass over the lines for one wanted name. */
  method TakeNamed<L, N>(lines: seq<L>, used: array<bool>, named: (L, N) -> bool, name: N) returns (taken: seq<L>)
    requires used.Length == |lines|
    modifies used
    ensures taken == Pick(Left(lines, old(used[..])), named, name, true)
    ensures Left(lines, used[..]) == Pick(Left(lines, old(used[..])), named, name, false)
  {
    ghost var was := used[..];
    taken := [];
    for i := 0 to |lines|
      invariant forall k :: i <= k < |lines| ==> used[k] == was[k]
      invariant taken == Pick(Left(lines[..i], was[..i]), named, name, true)
      invariant Left(lines[..i], used[..i]) == Pick(Left(lines[..i], was[..i]), named, name, false)
    {
      ghost var now := used[..i];
      PassSnoc(lines[..i], was[..i], now, named, name, lines[i], was[i], was[i] || named(lines[i], name));
      if !used[i] && named(lines[i], name) {
        taken := taken + [lines[i]];
        used[i] := true;
      }
      assert lines[..i + 1] == lines[..i] + [lines[i]] && was[..i + 1] == was[..i] + [was[i]];
      assert used[..i + 1] == now + [used[i]];
    }
    assert lines[..|lines|] == lines && was[..|lines|] == was && used[..|lines|] == used[..];
  }

  /** The lines no pass has taken, in their order. */
  method TakeRest<L>(lines: seq<L>, used: array<bool>) returns (rest: seq<L>)
    requires used.Length == |lines|
    ensures rest == Left(lines, used[..])
  {
    rest := [];
    for i := 0 to |lines|
      invariant rest == Left(lines[..i], used[..i])
    {
      assert lines[..i + 1] == lines[..i] + [lines[i]] && used[..i + 1] == used[..i] + [used[i]];
      LeftSnoc(lines[..i], used[..i], lines[i], used[i]);
      if !used[i] {
        rest := rest + [lines[i]];
      }
    }
    assert lines[..|lines|] == lines && used[..|lines|] == used[..];
  }

  method ReorderLines<L, N>(lines: seq<L>, named: (L, N) -> bool, desired: seq<N>) returns (ordered: seq<L>)
    ensures ordered == OrderLines(lines, named, desired)
  {
    var used := new bool[|lines|](_ => false);
    ordered := [];
    NothingUsed(lines, used[..]);
    for k := 0 to |desired|
      invariant OrderLines(lines, named, desired) == ordered + OrderLines(Left(lines, used[..]), named, desired[k..])
    {
      ghost var left := Left(lines, used[..]);
      assert desired[k..][0] == desired[k] && desired[k..][1..] == desired[k + 1..];
      var taken := TakeNamed(lines, used, named, desired[k]);
      assert OrderLines(left, named, desired[k..])
          == taken + OrderLines(Left(lines, used[..]), named, desired[k + 1..]);
      ordered := ordered + taken;
    }
    assert desired[|desired|..] == [];
    var rest := TakeRest(lines, used);
    ordered := ordered + rest;
  }

  // ------------------------------------------- the reference: a stable sort by rank

  /** The place of the first wanted name a line bears; past the end if it bears none. */
  function Rank<L, N>(line: L, named: (L, N) -> bool, names: seq<N>): (r: nat)
    ensures r <= |names|
  {
    if names == [] || named(line, names[0]) then 0 else 1 + Rank(line, named, names[1..])
  }

  ghost predicate Sorted<L, N>(lines: seq<L>, named: (L, N) -> bool, names: seq<N>) {
    forall i, j :: 0 <= i < j < |lines| ==> Rank(lines[i], named, names) <= Rank(lines[j], named, names)
  }

  /** The lines of one rank, in their order. */
  function AtRank<L, N>(lines: seq<L>, named: (L, N) -> bool, names: seq<N>, r: nat): seq<L> {
    if lines == [] then []
    else (if Rank(lines[0], named, names) == r then [lines[0]] else []) + AtRank(lines[1..], named, names, r)
  }

  lemma {:induction false} PickMembers<L, N>(lines: seq<L>, named: (L, N) -> bool, name: N, want: bool, x: L)
    ensures x in Pick(lines, named, name, want) <==> x in lines && named(x, name) == want
  {
    if lines != [] {
      PickMembers(lines[1..], named, name, want, x);
      assert lines == [lines[0]] + lines[1..];
    }
  }

  lemma {:induction false} PickConcat<L, N>(a: seq<L>, b: seq<L>, named: (L, N) -> bool, name: N, want: bool)
    ensures Pick(a + b, named, name, want) == Pick(a, named, name, want) + Pick(b, named, name, want)
  {
    if a == [] {
      assert a + b == b;
    } else {
      PickConcat(a[1..], b, named, name, want);
      assert (a + b)[0] == a[0] && (a + b)[1..] == a[1..] + b;
    }
  }

  /** Picking from lines that all pass, or all fail, the same test. */
  lemma {:induction false} PickUniform<L, N>(lines: seq<L>, named: (L, N) -> bool, name: N, want: bool, have: bool)
    requires forall i :: 0 <= i < |lines| ==> named(lines[i], name) == have
    ensures Pick(lines, named, name, want) == (if want == have then lines else [])
  {
    if lines != [] {
      PickUniform(lines[1..], named, name, want, have);
      assert lines == [lines[0]] + lines[1..];
    }
  }

  lemma {:induction false} PickSplits<L, N>(lines: seq<L>, named: (L, N) -> bool, name: N)
    ensures multiset(Pick(lines, named, name, true)) + multiset(Pick(lines, named, name, false)) == multiset(lines)
  {
    if lines != [] {
      PickSplits(lines[1..], named, name);
      assert lines == [lines[0]] + lines[1..];
    }
  }

  /** Nothing is lost, added or duplicated. */
  lemma {:induction false} OrderIsPermutation<L, N>(lines: seq<L>, named: (L, N) -> bool, names: seq<N>)
    ensures multiset(OrderLines(lines, named, names)) == multiset(lines)
    decreases |names|
  {
    if names != [] {
      PickSplits(lines, named, names[0]);
      OrderIsPermutation(Pick(lines, named, names[0], false), named, names[1..]);
    }
  }

  /** The lines after the first name's are exactly those that do not bear it. */
  lemma RestUnnamed<L, N>(lines: seq<L>, named: (L, N) -> bool, names: seq<N>, name: N)
    ensures forall i :: 0 <= i < |OrderLines(Pick(lines, named, name, false), named, names)| ==>
              !named(OrderLines(Pick(lines, named, name, false), named, names)[i], name)
  {
    var rest := Pick(lines, named, name, false);
    var r := OrderLines(rest, named, names);
    OrderIsPermutation(rest, named, names);
    forall i | 0 <= i < |r|
      ensures !named(r[i], name)
    {
      assert r[i] in multiset(rest);
      PickMembers(lines, named, name, false, r[i]);
    }
  }

  lemma AllNamed<L, N>(lines: seq<L>, named: (L, N) -> bool, name: N, want: bool)
    ensures forall i :: 0 <= i < |Pick(lines, named, name, want)| ==> named(Pick(lines, named, name, want)[i], name) == want
  {
    var r := Pick(lines, named, name, want);
    forall i | 0 <= i < |r|
      ensures named(r[i], name) == want
    {
      PickMembers(lines, named, name, want, r[i]);
    }
  }

  /** What the first name splits off an ordered list is what it split off the original. */
  lemma FirstSplit<L, N>(lines: seq<L>, named: (L, N) -> bool, names: seq<N>)
    requires names != []
    ensures Pick(OrderLines(lines, named, names), named, names[0], true) == Pick(lines, named, names[0], true)
    ensures Pick(OrderLines(lines, named, names), named, names[0], false)
         == OrderLines(Pick(lines, named, names[0], false), named, names[1..])
  {
    var front := Pick(lines, named, names[0], true);
    var back := OrderLines(Pick(lines, named, names[0], false), named, names[1..]);
    AllNamed(lines, named, names[0], true);
    RestUnnamed(lines, named, names[1..], names[0]);
    forall want: bool
      ensures Pick(front + back, named, names[0], want) == (if want then front else back)
    {
      PickConcat(front, back, named, names[0], want);
      PickUniform(front, named, names[0], want, true);
      PickUniform(back, named, names[0], want, false);
      assert front + [] == front && [] + back == back;
    }
  }

  /** Ordering twice changes nothing more. */
  lemma {:induction false} OrderIsIdempotent<L, N>(lines: seq<L>, named: (L, N) -> bool, names: seq<N>)
    ensures OrderLines(OrderLines(lines, named, names), named, names) == OrderLines(lines, named, names)
    decreases |names|
  {
    if names != [] {
      FirstSplit(lines, named, names);
      OrderIsIdempotent(Pick(lines, named, names[0], false), named, names[1..]);
    }
  }

  lemma {:induction false} AtRankSplit<L, N>(lines: seq<L>, named: (L, N) -> bool, names: seq<N>, r: nat)
    requires names != []
    ensures AtRank(lines, named, names, r)
         == if r == 0 then Pick(lines, named, names[0], true)
            else AtRank(Pick(lines, named, names[0], false), named, names[1..], r - 1)
  {
    if lines != [] {
      AtRankSplit(lines[1..], named, names, r);
      if r != 0 && !named(lines[0], names[0]) {
        var rest := Pick(lines[1..], named, names[0], false);
        assert Pick(lines, named, names[0], false) == [lines[0]] + rest;
        assert ([lines[0]] + rest)[1..] == rest;
      } else {
        assert [] + Pick(lines[1..], named, names[0], false) == Pick(lines[1..], named, names[0], false);
      }
    }
  }

  /** Lines of equal rank keep their order: with `OrderIsSorted`, this is the stable sort. */
  lemma {:induction false} OrderIsStable<L, N>(lines: seq<L>, named: (L, N) -> bool, names: seq<N>, r: nat)
    ensures AtRank(OrderLines(lines, named, names), named, names, r) == AtRank(lines, named, names, r)
    decreases |names|
  {
    if names != [] {
      AtRankSplit(lines, named, names, r);
      AtRankSplit(OrderLines(lines, named, names), named, names, r);
      FirstSplit(lines, named, names);
      if r != 0 {
        OrderIsStable(Pick(lines, named, names[0], false), named, names[1..], r - 1);
      }
    }
  }

  lemma {:induction false} OrderIsSorted<L, N>(lines: seq<L>, named: (L, N) -> bool, names: seq<N>)
    ensures Sorted(OrderLines(lines, named, names), named, names)
    decreases |names|
  {
    if names != [] {
      var front := Pick(lines, named, names[0], true);
      var back := OrderLines(Pick(lines, named, names[0], false), named, names[1..]);
      AllNamed(lines, named, names[0], true);
      RestUnnamed(lines, named, names[1..], names[0]);
      OrderIsSorted(Pick(lines, named, names[0], false), named, names[1..]);
      forall i, j | 0 <= i < j < |front + back|
        ensures Rank((front + back)[i], named, names) <= Rank((front + back)[j], named, names)
      {
        if i >= |front| {
          assert Rank(back[i - |front|], named, names[1..]) <= Rank(back[j - |front|], named, names[1..]);
        }
      }
    }
  }

  /** All the lines that bear `name` bear the same wanted names. */
  ghost predicate Together<L, N>(lines: seq<L>, named: (L, N) -> bool, names: seq<N>, name: N) {
    forall i, j, k :: 0 <= i < |lines| && 0 <= j < |lines| && 0 <= k < |names| ==>
      named(lines[i], name) && named(lines[j], name) ==> named(lines[i], names[k]) == named(lines[j], names[k])
  }

  lemma {:induction false} PickPick<L, N>(lines: seq<L>, named: (L, N) -> bool, name: N, d: N, want: bool, have: bool)
    requires forall i :: 0 <= i < |lines| && named(lines[i], name) ==> named(lines[i], d) == have
    ensures Pick(Pick(lines, named, d, want), named, name, true)
         == if want == have then Pick(lines, named, name, true) else []
  {
    if lines != [] {
      PickPick(lines[1..], named, name, d, want, have);
      PickConcat([lines[0]], Pick(lines[1..], named, d, want), named, name, true);
      assert [] + Pick(lines[1..], named, d, want) == Pick(lines[1..], named, d, want);
    }
  }

  /** Lines with the same name keep their order. */
  lemma {:induction false} SameNameKeepsOrder<L, N>(lines: seq<L>, named: (L, N) -> bool, names: seq<N>, name: N)
    requires Together(lines, named, names, name)
    ensures Pick(OrderLines(lines, named, names), named, name, true) == Pick(lines, named, name, true)
    decreases |names|
  {
    if names != [] {
      var d := names[0];
      var have := exists i :: 0 <= i < |lines| && named(lines[i], name) && named(lines[i], d);
      var rest := Pick(lines, named, d, false);
      PickPick(lines, named, name, d, true, have);
      PickPick(lines, named, name, d, false, have);
      forall i, j, k | 0 <= i < |rest| && 0 <= j < |rest| && 0 <= k < |names[1..]| && named(rest[i], name) && named(rest[j], name)
        ensures named(rest[i], names[1..][k]) == named(rest[j], names[1..][k])
      {
        PickMembers(lines, named, d, false, rest[i]);
        PickMembers(lines, named, d, false, rest[j]);
        assert names[1..][k] == names[k + 1];
      }
      SameNameKeepsOrder(rest, named, names[1..], name);
      PickConcat(Pick(lines, named, d, true), OrderLines(rest, named, names[1..]), named, name, true);
    }
  }

  predicate Any<L>(lines: seq<L>, p: L -> bool) {
    exists i :: 0 <= i < |lines| && p(lines[i])
  }

  lemma AnyOfPermutation<L>(a: seq<L>, b: seq<L>, p: L -> bool)
    requires multiset(a) == multiset(b)
    ensures Any(a, p) == Any(b, p)
  {
    forall i | 0 <= i < |a| && p(a[i])
      ensures Any(b, p)
    {
      assert a[i] in multiset(b);
      var j :| 0 <= j < |b| && b[j] == a[i];
      assert p(b[j]);
    }
    forall i | 0 <= i < |b| && p(b[i])
      ensures Any(a, p)
    {
      assert b[i] in multiset(a);
      var j :| 0 <= j < |a| && a[j] == b[i];
      assert p(a[j]);
    }
  }
}

/**
 * Tables of sums.  A table shows a list of samples when each row holds the sum of
 * the samples with its key, and there is a row for every key that has a sample.
 * Adding a sample, merging two tables and grouping rows under coarser keys keep
 * that; every aggregation of the channel monitor is one of these three.
 */
module Tally {
  import opened Wrappers

  /** How values are summed. */
  datatype Sum<!C(!new)> = Sum(zero: C, plus: (C, C) -> C)

  ghost predicate Lawful<C(!new)>(s: Sum<C>) {
    && (forall a, b {:trigger s.plus(a, b)} :: s.plus(a, b) == s.plus(b, a))
    && (forall a, b, c {:trigger s.plus(s.plus(a, b), c)} :: s.plus(s.plus(a, b), c) == s.plus(a, s.plus(b, c)))
    && (forall a {:trigger s.plus(a, s.zero)} :: s.plus(a, s.zero) == a)
  }

  /** How a sample is counted: under which key, if at all, and with what value. */
  datatype Count<!R(!new), !K, !C> = Count(key: R -> Option<K>, value: R -> C)

  /** The sum of the samples with key `k`. */
  ghost function Total<R(!new), K, C(!new)>(samples: seq<R>, how: Count<R, K, C>, k: K, s: Sum<C>): C {
    if samples == [] then s.zero
    else
      var rest, r := samples[..|samples| - 1], samples[|samples| - 1];
      if how.key(r) == Some(k) then s.plus(Total(rest, how, k, s), how.value(r)) else Total(rest, how, k, s)
  }

  ghost predicate Occurs<R(!new), K, C(!new)>(samples: seq<R>, how: Count<R, K, C>, k: K) {
    exists r :: r in samples && how.key(r) == Some(k)
  }

  function At<K, C(!new)>(table: map<K, C>, k: K, s: Sum<C>): C {
    if k in table then table[k] else s.zero
  }

  ghost predicate Shows<R(!new), K(!new), C(!new)>(table: map<K, C>, samples: seq<R>, how: Count<R, K, C>, s: Sum<C>) {
    && (forall k {:trigger k in table} :: k in table <==> Occurs(samples, how, k))
    && (forall k {:trigger Total(samples, how, k, s)} :: At(table, k, s) == Total(samples, how, k, s))
  }

  // ---------------------------------------------------------- adding a sample

  function Added<K, C(!new)>(table: map<K, C>, k: K, v: C, s: Sum<C>): map<K, C> {
    table[k := if k in table then s.plus(table[k], v) else v]
  }

  lemma {:induction false} TotalOfNone<R(!new), K, C(!new)>(samples: seq<R>, how: Count<R, K, C>, k: K, s: Sum<C>)
    requires !Occurs(samples, how, k)
    ensures Total(samples, how, k, s) == s.zero
  {
    if samples != [] {
      var rest, r := samples[..|samples| - 1], samples[|samples| - 1];
      assert r in samples;
      assert forall q :: q in rest ==> q in samples;
      TotalOfNone(rest, how, k, s);
    }
  }

  lemma EmptyShows<R(!new), K(!new), C(!new)>(how: Count<R, K, C>, s: Sum<C>)
    ensures Shows(map[], [], how, s)
  {
  }

  lemma TotalSnoc<R(!new), K, C(!new)>(samples: seq<R>, r: R, how: Count<R, K, C>, k: K, s: Sum<C>)
    ensures Total(samples + [r], how, k, s)
         == if how.key(r) == Some(k) then s.plus(Total(samples, how, k, s), how.value(r)) else Total(samples, how, k, s)
  {
    assert (samples + [r])[..|samples|] == samples;
  }

  /** Adding a sample to its row, or to an empty row. */
  lemma RowShows<R(!new), K(!new), C(!new)>(table: map<K, C>, samples: seq<R>, r: R, k: K, row: C, how: Count<R, K, C>, s: Sum<C>)
    requires Shows(table, samples, how, s) && how.key(r) == Some(k)
    requires row == s.plus(At(table, k, s), how.value(r))
    ensures Shows(table[k := row], samples + [r], how, s)
  {
    forall j
      ensures j in table[k := row] <==> Occurs(samples + [r], how, j)
      ensures At(table[k := row], j, s) == Total(samples + [r], how, j, s)
    {
      TotalSnoc(samples, r, how, j, s);
      if Occurs(samples, how, j) {
        var q :| q in samples && how.key(q) == Some(j);
        assert q in samples + [r];
      }
      assert r in samples + [r];
    }
  }

  lemma PlusZero<C(!new)>(s: Sum<C>, a: C)
    requires Lawful(s)
    ensures s.plus(s.zero, a) == a
  {
    assert s.plus(s.zero, a) == s.plus(a, s.zero);
  }

  /** A sample that is not counted changes nothing. */
  lemma SkipShows<R(!new), K(!new), C(!new)>(table: map<K, C>, samples: seq<R>, r: R, how: Count<R, K, C>, s: Sum<C>)
    requires Shows(table, samples, how, s) && how.key(r).None?
    ensures Shows(table, samples + [r], how, s)
  {
    forall k
      ensures k in table <==> Occurs(samples + [r], how, k)
      ensures At(table, k, s) == Total(samples + [r], how, k, s)
    {
      TotalSnoc(samples, r, how, k, s);
      if Occurs(samples, how, k) {
        var q :| q in samples && how.key(q) == Some(k);
        assert q in samples + [r];
      }
    }
  }

  /** A table of which only some part `f` of the sums is kept. */
  lemma MappedShows<R(!new), K(!new), C(!new), D(!new)>(table: map<K, C>, mapped: map<K, D>, samples: seq<R>, how: Count<R, K, C>, other: Count<R, K, D>,
                                                     f: C -> D, s: Sum<C>, t: Sum<D>)
    requires Shows(table, samples, how, s)
    requires mapped.Keys == table.Keys && forall k :: k in table ==> mapped[k] == f(table[k])
    requires f(s.zero) == t.zero
    requires forall r {:trigger other.key(r)} :: other.key(r) == how.key(r)
    requires forall k {:trigger Total(samples, other, k, t)} :: Total(samples, other, k, t) == f(Total(samples, how, k, s))
    ensures Shows(mapped, samples, other, t)
  {
    forall k
      ensures k in mapped <==> Occurs(samples, other, k)
      ensures At(mapped, k, t) == Total(samples, other, k, t)
    {
      assert k in table <==> Occurs(samples, how, k);
      assert At(table, k, s) == Total(samples, how, k, s);
      if Occurs(samples, how, k) {
        var r :| r in samples && how.key(r) == Some(k);
        assert other.key(r) == Some(k);
      }
    }
  }

  /** Only which samples have key `k` matters to its total. */
  lemma {:induction false} SameTotal<R(!new), K, L, C(!new)>(samples: seq<R>, a: Count<R, K, C>, b: Count<R, L, C>, k: K, l: L, s: Sum<C>)
    requires forall r :: r in samples ==> (a.key(r) == Some(k) <==> b.key(r) == Some(l)) && a.value(r) == b.value(r)
    ensures Total(samples, a, k, s) == Total(samples, b, l, s)
    ensures Occurs(samples, a, k) <==> Occurs(samples, b, l)
  {
    if samples != [] {
      var rest, r := samples[..|samples| - 1], samples[|samples| - 1];
      assert r in samples && forall q :: q in rest ==> q in samples;
      SameTotal(rest, a, b, k, l, s);
    }
  }

  // -------------------------------------------------------- merging two tables

  lemma {:induction false} TotalConcat<R(!new), K, C(!new)>(a: seq<R>, b: seq<R>, how: Count<R, K, C>, k: K, s: Sum<C>)
    requires Lawful(s)
    ensures Total(a + b, how, k, s) == s.plus(Total(a, how, k, s), Total(b, how, k, s))
    decreases |b|
  {
    if b == [] {
      assert a + b == a;
    } else {
      var rest, r := b[..|b| - 1], b[|b| - 1];
      TotalConcat(a, rest, how, k, s);
      assert (a + b)[..|a + b| - 1] == a + rest;
    }
  }

  lemma OccursConcat<R(!new), K, C(!new)>(a: seq<R>, b: seq<R>, how: Count<R, K, C>, k: K)
    ensures Occurs(a + b, how, k) <==> Occurs(a, how, k) || Occurs(b, how, k)
  {
    assert forall r :: r in a + b <==> r in a || r in b;
  }

  /** The rows of both tables, summed where both have one. */
  ghost predicate IsMerged<K(!new), C(!new)>(out: map<K, C>, a: map<K, C>, b: map<K, C>, s: Sum<C>) {
    && out.Keys == a.Keys + b.Keys
    && forall k :: k in out ==>
         out[k] == if k in a && k in b then s.plus(a[k], b[k]) else if k in a then a[k] else b[k]
  }

  lemma MergeShows<R(!new), K(!new), C(!new)>(out: map<K, C>, a: map<K, C>, b: map<K, C>, x: seq<R>, y: seq<R>, how: Count<R, K, C>, s: Sum<C>)
    requires Lawful(s) && IsMerged(out, a, b, s) && Shows(a, x, how, s) && Shows(b, y, how, s)
    ensures Shows(out, x + y, how, s)
  {
    forall k
      ensures k in out <==> Occurs(x + y, how, k)
      ensures At(out, k, s) == Total(x + y, how, k, s)
    {
      OccursConcat(x, y, how, k);
      TotalConcat(x, y, how, k, s);
      assert At(a, k, s) == Total(x, how, k, s) && At(b, k, s) == Total(y, how, k, s);
      assert s.plus(s.zero, At(b, k, s)) == s.plus(At(b, k, s), s.zero);
    }
  }

  // ------------------------------------------------------------- permutations

  lemma Without<R>(b: seq<R>, i: nat)
    requires i < |b|
    ensures multiset(b) == multiset(b[..i] + b[i + 1..]) + multiset{b[i]}
    ensures b == b[..i] + [b[i]] + b[i + 1..]
  {
    assert b == b[..i] + [b[i]] + b[i + 1..];
  }

  lemma Cancel<R>(x: multiset<R>, y: multiset<R>, r: R)
    requires x + multiset{r} == y + multiset{r}
    ensures x == y
  {
    assert x == x + multiset{r} - multiset{r};
  }

  function Except<R>(b: seq<R>, i: nat): seq<R>
    requires i < |b|
  {
    b[..i] + b[i + 1..]
  }

  /** A total with one sample taken out, wherever it was. */
  lemma TakeOut<R(!new), K, C(!new)>(b: seq<R>, i: nat, how: Count<R, K, C>, k: K, s: Sum<C>)
    requires Lawful(s) && i < |b|
    ensures Total(b, how, k, s)
         == if how.key(b[i]) == Some(k) then s.plus(Total(Except(b, i), how, k, s), how.value(b[i])) else Total(Except(b, i), how, k, s)
  {
    var left, r, right := b[..i], b[i], b[i + 1..];
    Without(b, i);
    TotalConcat(left + [r], right, how, k, s);
    TotalSnoc(left, r, how, k, s);
    TotalConcat(left, right, how, k, s);
    Swap(Total(left, how, k, s), how.value(r), Total(right, how, k, s), s);
  }

  lemma {:induction false} SamplesMoved<R(!new), K, C(!new)>(a: seq<R>, b: seq<R>, how: Count<R, K, C>, k: K, s: Sum<C>)
    requires Lawful(s) && multiset(a) == multiset(b)
    ensures Total(a, how, k, s) == Total(b, how, k, s)
    decreases |a|
  {
    if a == [] {
      assert |multiset(b)| == |b| == 0;
    } else {
      assert a[0] in multiset(b);
      var i :| 0 <= i < |b| && b[i] == a[0];
      Without(a, 0);
      Without(b, i);
      Cancel(multiset(Except(a, 0)), multiset(Except(b, i)), a[0]);
      SamplesMoved(Except(a, 0), Except(b, i), how, k, s);
      TakeOut(a, 0, how, k, s);
      TakeOut(b, i, how, k, s);
    }
  }

  // ------------------------------------------------------------ what is missing

  /** Weights add up. */
  ghost predicate Adds<C(!new)>(s: Sum<C>, weight: C -> int, a: C, b: C) {
    weight(s.plus(a, b)) == weight(a) + weight(b)
  }

  ghost predicate Weighs<R(!new), K, C(!new)>(how: Count<R, K, C>, weight: C -> int, r: R) {
    weight(how.value(r)) >= 1
  }

  /** Every sample adds to the weight of a sum. */
  ghost predicate Positive<R(!new), K, C(!new)>(how: Count<R, K, C>, s: Sum<C>, weight: C -> int) {
    && (forall a, b {:trigger Adds(s, weight, a, b)} :: Adds(s, weight, a, b))
    && (forall r {:trigger Weighs(how, weight, r)} :: Weighs(how, weight, r))
  }

  lemma {:induction false} TotalPositive<R(!new), K, C(!new)>(samples: seq<R>, how: Count<R, K, C>, k: K, s: Sum<C>, weight: C -> int)
    requires Lawful(s) && Positive(how, s, weight)
    ensures weight(Total(samples, how, k, s)) >= if Occurs(samples, how, k) then 1 else 0
  {
    if samples == [] {
      assert s.plus(s.zero, s.zero) == s.zero && Adds(s, weight, s.zero, s.zero);
    } else {
      var rest, r := samples[..|samples| - 1], samples[|samples| - 1];
      TotalPositive(rest, how, k, s, weight);
      assert samples == rest + [r];
      OccursConcat(rest, [r], how, k);
      assert Weighs(how, weight, r) && Adds(s, weight, Total(rest, how, k, s), how.value(r));
    }
  }

  /** What is coarser weighs the same. */
  lemma CoarsePositive<R(!new), K, L, C(!new)>(fine: Count<R, K, C>, coarse: Count<R, L, C>, s: Sum<C>, weight: C -> int)
    requires Positive(fine, s, weight) && coarse.value == fine.value
    ensures Positive(coarse, s, weight)
  {
    forall r
      ensures Weighs(coarse, weight, r)
    {
      assert Weighs(fine, weight, r);
    }
  }

  /** A part of the samples has the whole total just when none with the key is outside it. */
  lemma PartIsWhole<R(!new), K, C(!new)>(whole: seq<R>, part: seq<R>, others: seq<R>, how: Count<R, K, C>, k: K, s: Sum<C>, weight: C -> int)
    requires Lawful(s) && Positive(how, s, weight) && multiset(whole) == multiset(part) + multiset(others)
    ensures Occurs(whole, how, k) <==> Occurs(part, how, k) || Occurs(others, how, k)
    ensures Total(whole, how, k, s) == Total(part, how, k, s) <==> !Occurs(others, how, k)
  {
    assert multiset(part + others) == multiset(whole);
    assert forall r :: r in whole <==> r in multiset(whole);
    assert forall r :: r in part + others <==> r in multiset(part + others);
    SamplesMoved(whole, part + others, how, k, s);
    TotalConcat(part, others, how, k, s);
    OccursConcat(part, others, how, k);
    TotalPositive(others, how, k, s, weight);
    assert Adds(s, weight, Total(part, how, k, s), Total(others, how, k, s));
    if !Occurs(others, how, k) {
      TotalOfNone(others, how, k, s);
    }
  }

  // --------------------------------------------- grouping rows by coarser keys

  function Via<K, L>(k: Option<K>, g: K -> Option<L>): Option<L> {
    match k
    case Some(key) => g(key)
    case None => None
  }

  /** `coarse` counts the samples that `fine` counts, under the keys that `g` makes of theirs. */
  ghost predicate Coarsens<R(!new), K, L, C(!new)>(coarse: Count<R, L, C>, fine: Count<R, K, C>, g: K -> Option<L>) {
    forall r {:trigger coarse.key(r)} :: coarse.key(r) == Via(fine.key(r), g) && coarse.value(r) == fine.value(r)
  }

  function Coarse<R(!new), K, L, C(!new)>(fine: Count<R, K, C>, g: K -> Option<L>): Count<R, L, C> {
    Count((r: R) => Via(fine.key(r), g), fine.value)
  }

  lemma CoarseCoarsens<R(!new), K, L, C(!new)>(fine: Count<R, K, C>, g: K -> Option<L>)
    ensures Coarsens(Coarse(fine, g), fine, g)
  {
  }

  /** The sum under a coarse key of the samples whose fine key is among `done`. */
  ghost function PartTotal<R(!new), K(!new), L, C(!new)>(samples: seq<R>, fine: Count<R, K, C>, g: K -> Option<L>, done: set<K>, l: L, s: Sum<C>): C {
    if samples == [] then s.zero
    else
      var rest, r := samples[..|samples| - 1], samples[|samples| - 1];
      var k := fine.key(r);
      if k.Some? && k.value in done && g(k.value) == Some(l) then s.plus(PartTotal(rest, fine, g, done, l, s), fine.value(r))
      else PartTotal(rest, fine, g, done, l, s)
  }

  lemma Swap<C(!new)>(a: C, b: C, c: C, s: Sum<C>)
    requires Lawful(s)
    ensures s.plus(s.plus(a, b), c) == s.plus(s.plus(a, c), b)
  {
    assert s.plus(s.plus(a, b), c) == s.plus(a, s.plus(b, c));
    assert s.plus(s.plus(a, c), b) == s.plus(a, s.plus(c, b));
  }

  lemma {:induction false} PartStep<R(!new), K(!new), L, C(!new)>(samples: seq<R>, fine: Count<R, K, C>, g: K -> Option<L>, done: set<K>, k: K, l: L, s: Sum<C>)
    requires Lawful(s) && k !in done
    ensures PartTotal(samples, fine, g, done + {k}, l, s)
         == if g(k) == Some(l) then s.plus(PartTotal(samples, fine, g, done, l, s), Total(samples, fine, k, s))
            else PartTotal(samples, fine, g, done, l, s)
  {
    if samples != [] {
      var rest, r := samples[..|samples| - 1], samples[|samples| - 1];
      PartStep(rest, fine, g, done, k, l, s);
      var part, total, v := PartTotal(rest, fine, g, done, l, s), Total(rest, fine, k, s), fine.value(r);
      Swap(part, total, v, s);
      assert s.plus(s.plus(part, total), v) == s.plus(part, s.plus(total, v));
    } else {
      assert s.plus(s.zero, s.zero) == s.zero;
    }
  }

  lemma {:induction false} PartNone<R(!new), K(!new), L, C(!new)>(samples: seq<R>, fine: Count<R, K, C>, g: K -> Option<L>, l: L, s: Sum<C>)
    ensures PartTotal(samples, fine, g, {}, l, s) == s.zero
  {
    if samples != [] {
      PartNone(samples[..|samples| - 1], fine, g, l, s);
    }
  }

  lemma {:induction false} PartAll<R(!new), K(!new), L, C(!new)>(samples: seq<R>, fine: Count<R, K, C>, g: K -> Option<L>, coarse: Count<R, L, C>, all: set<K>, l: L, s: Sum<C>)
    requires Coarsens(coarse, fine, g)
    requires forall r :: r in samples && fine.key(r).Some? ==> fine.key(r).value in all
    ensures PartTotal(samples, fine, g, all, l, s) == Total(samples, coarse, l, s)
  {
    if samples != [] {
      var rest, r := samples[..|samples| - 1], samples[|samples| - 1];
      assert r in samples && forall q :: q in rest ==> q in samples;
      PartAll(rest, fine, g, coarse, all, l, s);
      assert coarse.key(r) == Via(fine.key(r), g);
    }
  }

  ghost predicate Reached<K(!new), L>(done: set<K>, g: K -> Option<L>, l: L) {
    exists k :: k in done && g(k) == Some(l)
  }

  /** How far a fold has come: the rows of `done` have been added to `into`. */
  ghost predicate Folded<R(!new), K(!new), L(!new), C(!new)>(acc: map<L, C>, into: map<L, C>, samples: seq<R>, fine: Count<R, K, C>,
                                                          g: K -> Option<L>, done: set<K>, s: Sum<C>) {
    && (forall l {:trigger l in acc} :: l in acc <==> l in into || Reached(done, g, l))
    && (forall l {:trigger PartTotal(samples, fine, g, done, l, s)} ::
          At(acc, l, s) == s.plus(At(into, l, s), PartTotal(samples, fine, g, done, l, s)))
  }

  lemma FoldStarts<R(!new), K(!new), L(!new), C(!new)>(into: map<L, C>, samples: seq<R>, fine: Count<R, K, C>, g: K -> Option<L>, s: Sum<C>)
    requires Lawful(s)
    ensures Folded(into, into, samples, fine, g, {}, s)
  {
    forall l
      ensures At(into, l, s) == s.plus(At(into, l, s), PartTotal(samples, fine, g, {}, l, s))
    {
      PartNone(samples, fine, g, l, s);
    }
  }

  lemma FoldSteps<R(!new), K(!new), L(!new), C(!new)>(acc: map<L, C>, into: map<L, C>, table: map<K, C>, samples: seq<R>, fine: Count<R, K, C>,
                                                   g: K -> Option<L>, done: set<K>, k: K, s: Sum<C>)
    requires Lawful(s) && Shows(table, samples, fine, s) && k in table && k !in done
    requires Folded(acc, into, samples, fine, g, done, s)
    ensures Folded(if g(k).Some? then Added(acc, g(k).value, table[k], s) else acc, into, samples, fine, g, done + {k}, s)
  {
    var next := if g(k).Some? then Added(acc, g(k).value, table[k], s) else acc;
    assert table[k] == Total(samples, fine, k, s);
    forall l
      ensures l in next <==> l in into || Reached(done + {k}, g, l)
      ensures At(next, l, s) == s.plus(At(into, l, s), PartTotal(samples, fine, g, done + {k}, l, s))
    {
      PartStep(samples, fine, g, done, k, l, s);
      var was := PartTotal(samples, fine, g, done, l, s);
      assert s.plus(s.plus(At(into, l, s), was), table[k]) == s.plus(At(into, l, s), s.plus(was, table[k]));
      assert s.plus(s.zero, table[k]) == s.plus(table[k], s.zero);
      assert l in acc <==> l in into || Reached(done, g, l);
      if Reached(done, g, l) {
        var j :| j in done && g(j) == Some(l);
        assert j in done + {k};
      }
      assert k in done + {k};
    }
  }

  lemma FoldShows<R(!new), K(!new), L(!new), C(!new)>(acc: map<L, C>, into: map<L, C>, table: map<K, C>, x: seq<R>, y: seq<R>, fine: Count<R, K, C>,
                                                   coarse: Count<R, L, C>, g: K -> Option<L>, s: Sum<C>)
    requires Lawful(s) && Coarsens(coarse, fine, g) && Shows(into, x, coarse, s) && Shows(table, y, fine, s)
    requires Folded(acc, into, y, fine, g, table.Keys, s)
    ensures Shows(acc, x + y, coarse, s)
  {
    forall r | r in y && fine.key(r).Some?
      ensures fine.key(r).value in table.Keys
    {
      assert Occurs(y, fine, fine.key(r).value);
      assert fine.key(r).value in table;
    }
    forall l
      ensures l in acc <==> Occurs(x + y, coarse, l)
      ensures At(acc, l, s) == Total(x + y, coarse, l, s)
    {
      OccursConcat(x, y, coarse, l);
      TotalConcat(x, y, coarse, l, s);
      PartAll(y, fine, g, coarse, table.Keys, l, s);
      assert At(into, l, s) == Total(x, coarse, l, s);
      ReachedOccurs(table, y, fine, coarse, g, l, s);
    }
  }

  lemma ReachedOccurs<R(!new), K(!new), L(!new), C(!new)>(table: map<K, C>, y: seq<R>, fine: Count<R, K, C>, coarse: Count<R, L, C>,
                                                       g: K -> Option<L>, l: L, s: Sum<C>)
    requires Coarsens(coarse, fine, g) && Shows(table, y, fine, s)
    ensures Reached(table.Keys, g, l) <==> Occurs(y, coarse, l)
  {
    if Reached(table.Keys, g, l) {
      var k :| k in table.Keys && g(k) == Some(l);
      assert k in table;
      var r :| r in y && fine.key(r) == Some(k);
      assert coarse.key(r) == Some(l);
    }
    if Occurs(y, coarse, l) {
      var r :| r in y && coarse.key(r) == Some(l);
      assert Occurs(y, fine, fine.key(r).value);
      assert fine.key(r).value in table;
    }
  }

  /** Adds the rows of a table to another, each under the key that `g` gives it, if any. */
  method Fold<R(!new), K(!new, ==), L(!new, ==), C(!new)>(into: map<L, C>, table: map<K, C>, g: K -> Option<L>, s: Sum<C>,
      ghost x: seq<R>, ghost y: seq<R>, ghost fine: Count<R, K, C>, ghost coarse: Count<R, L, C>) returns (acc: map<L, C>)
    requires Lawful(s) && Coarsens(coarse, fine, g) && Shows(into, x, coarse, s) && Shows(table, y, fine, s)
    ensures Shows(acc, x + y, coarse, s)
  {
    acc := into;
    var left := table.Keys;
    FoldStarts(into, y, fine, g, s);
    assert table.Keys - left == {};
    while left != {}
      invariant left <= table.Keys
      invariant Folded(acc, into, y, fine, g, table.Keys - left, s)
      decreases |left|
    {
      var k :| k in left;
      FoldSteps(acc, into, table, y, fine, g, table.Keys - left, k, s);
      assert table.Keys - left + {k} == table.Keys - (left - {k});
      if g(k).Some? {
        acc := Added(acc, g(k).value, table[k], s);
      }
      left := left - {k};
    }
    assert table.Keys - left == table.Keys;
    FoldShows(acc, into, table, x, y, fine, coarse, g, s);
  }

  function Restrict<K, C(!new)>(table: map<K, C>, keys: set<K>): map<K, C> {
    map k | k in table && k in keys :: table[k]
  }

  lemma MergeStep<K(!new), C(!new)>(out: map<K, C>, a: map<K, C>, b: map<K, C>, done: set<K>, k: K, s: Sum<C>)
    requires IsMerged(out, a, Restrict(b, done), s) && k in b && k !in done
    ensures IsMerged(Added(out, k, b[k], s), a, Restrict(b, done + {k}), s)
  {
    assert Restrict(b, done + {k}).Keys == Restrict(b, done).Keys + {k};
    assert k in out <==> k in a;
  }

  /** Adds the rows of one table to another under their own keys. */
  method Merge<K(!new, ==), C(!new)>(a: map<K, C>, b: map<K, C>, s: Sum<C>) returns (out: map<K, C>)
    ensures IsMerged(out, a, b, s)
  {
    out := a;
    var left := b.Keys;
    while left != {}
      invariant left <= b.Keys
      invariant IsMerged(out, a, Restrict(b, b.Keys - left), s)
      decreases |left|
    {
      var k :| k in left;
      MergeStep(out, a, b, b.Keys - left, k, s);
      assert b.Keys - left + {k} == b.Keys - (left - {k});
      out := Added(out, k, b[k], s);
      left := left - {k};
    }
    assert Restrict(b, b.Keys - left) == b;
  }
}

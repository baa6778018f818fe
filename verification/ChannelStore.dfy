/**
 * The channel monitor's database: minute rows, and rows precomputed per 5 minutes,
 * hour, half day and day.  The metric tables (scalars and latency histograms) and
 * the error tables are two instances of the same store.
 */
module ChannelStore {
  import opened Tally
  import opened Wrappers
  import opened ChannelMemory

  const DAY: nat := 86400

  const ROLLUPS: seq<nat> := [300, 3600, 43200, 86400]

  /** How long rows are kept, in seconds. */
  const MINUTES_KEPT: nat := 7 * DAY

  function RollupKept(seconds: nat): nat {
    if seconds == 300 then 7 * DAY
    else if seconds == 3600 then 30 * DAY
    else if seconds == 43200 then 45 * DAY
    else 90 * DAY
  }

  // ------------------------------------------------------------ time windows

  /** Remainder as Go computes it, with the sign of the dividend. */
  function TruncMod(a: int, b: nat): int
    requires b > 0
  {
    if a >= 0 then a % b else -(-a % b)
  }

  /** The start of the window that a minute row is summed in. */
  function ParentStart(minute: int, size: nat): int {
    if size == 0 then minute else minute - TruncMod(minute, size)
  }

  /**
   * The window computed for a minute contains it from 1970 on; before, only if it
   * starts on a multiple of the size.
   */
  lemma ParentContains(minute: int, size: nat)
    requires size > 0
    ensures ParentStart(minute, size) <= minute < ParentStart(minute, size) + size <==> minute >= 0 || -minute % size == 0
  {
  }

  /** From 1970 on a window is where all its minutes are summed, and no others. */
  lemma WindowIsParent(minute: nat, other: nat, size: nat)
    requires size > 0
    ensures var start := ParentStart(minute, size);
            start >= 0 && (start <= other < start + size <==> ParentStart(other, size) == start)
  {
    var start := ParentStart(minute, size);
    var a, b := minute / size, other / size;
    assert start == a * size && ParentStart(other, size) == b * size;
    if start <= other < start + size {
      Quotient(other, a, size);
    }
  }

  lemma {:induction false} Times(p: nat, q: nat, size: nat)
    ensures p < q ==> p * size + size <= q * size
    decreases q
  {
    if p + 1 < q {
      Times(p, q - 1, size);
      assert q * size == (q - 1) * size + size;
    } else if p + 1 == q {
      assert q * size == p * size + size;
    }
  }

  lemma Quotient(n: nat, q: nat, size: nat)
    requires size > 0 && q * size <= n < q * size + size
    ensures n / size == q
  {
    var p := n / size;
    Times(p, q, size);
    Times(q, p, size);
  }

  // ------------------------------------------------------------ rows and sums

  datatype Rollup<S> = Rollup(seconds: nat, row: Row<S>)

  /** One precomputed window of one channel; the error table has many rows in it. */
  datatype Cell<B> = Cell(seconds: nat, start: int, channel: B)

  function ParentRow<S>(row: Row<S>, seconds: nat): Rollup<S> {
    Rollup(seconds, Row(ParentStart(row.bucket, seconds), row.series))
  }

  /** Samples counted under the windows their minutes are summed in. */
  function Rolled<R(!new), S, C(!new)>(how: Count<R, Row<S>, C>, seconds: nat): Count<R, Rollup<S>, C> {
    Coarse(how, (row: Row<S>) => Some(ParentRow(row, seconds)))
  }

  function CellOf<S, B>(k: Rollup<S>, channel: S -> B): Cell<B> {
    Cell(k.seconds, k.row.bucket, channel(k.row.series))
  }

  /** The precomputed row `k` is the sum of the samples in its window. */
  ghost predicate RollupShows<R(!new), S(!new), C(!new)>(rollups: map<Rollup<S>, C>, samples: seq<R>, k: Rollup<S>, how: Count<R, Row<S>, C>, s: Sum<C>) {
    && (k in rollups <==> Occurs(samples, Rolled(how, k.seconds), k))
    && At(rollups, k, s) == Total(samples, Rolled(how, k.seconds), k, s)
  }

  ghost predicate SameSamples<R(!new), S(!new), C(!new)>(a: seq<R>, b: seq<R>, k: Rollup<S>, how: Count<R, Row<S>, C>, s: Sum<C>) {
    && (Occurs(a, Rolled(how, k.seconds), k) <==> Occurs(b, Rolled(how, k.seconds), k))
    && Total(a, Rolled(how, k.seconds), k, s) == Total(b, Rolled(how, k.seconds), k, s)
  }

  ghost predicate SinceEpoch<R(!new), S(!new), C(!new)>(samples: seq<R>, how: Count<R, Row<S>, C>) {
    forall r :: r in samples && how.key(r).Some? ==> how.key(r).value.bucket >= 0
  }

  /** A minute row of one window and channel, as a row of that window. */
  function InWindow<S, B(==)>(row: Row<S>, seconds: nat, start: int, end: int, c: B, channel: S -> B): Option<Rollup<S>> {
    if channel(row.series) == c && start <= row.bucket < end then Some(Rollup(seconds, Row(start, row.series))) else None
  }

  function WindowOf<S, B(==)>(seconds: nat, start: int, end: int, c: B, channel: S -> B): Row<S> -> Option<Rollup<S>> {
    (row: Row<S>) => InWindow(row, seconds, start, end, c, channel)
  }

  /** For the rows of a window it is the same to sum its minutes or all that roll up to it. */
  lemma WindowTotal<R(!new), S(!new), B, C(!new)>(samples: seq<R>, k: Rollup<S>, start: int, minute: nat, c: B, channel: S -> B, how: Count<R, Row<S>, C>, s: Sum<C>)
    requires SinceEpoch(samples, how) && k.seconds > 0 && start == ParentStart(minute, k.seconds)
    requires CellOf(k, channel) == Cell(k.seconds, start, c)
    ensures var window := Coarse(how, WindowOf(k.seconds, start, start + k.seconds, c, channel));
            && Total(samples, window, k, s) == Total(samples, Rolled(how, k.seconds), k, s)
            && (Occurs(samples, window, k) <==> Occurs(samples, Rolled(how, k.seconds), k))
  {
    var window := Coarse(how, WindowOf(k.seconds, start, start + k.seconds, c, channel));
    var rolled := Rolled(how, k.seconds);
    forall r | r in samples
      ensures window.key(r) == Some(k) <==> rolled.key(r) == Some(k)
    {
      if how.key(r).Some? {
        WindowIsParent(minute, how.key(r).value.bucket, k.seconds);
      }
    }
    SameTotal(samples, window, rolled, k, k, s);
  }

  /**
   * DELETE the rows of one window and channel, then INSERT the sums of their minute
   * rows.  Those rows then show the samples that the minute rows show.
   */
  method Recompute<R(!new), S(!new, ==), B(==), C(!new)>(minutes: map<Row<S>, C>, rollups: map<Rollup<S>, C>, seconds: nat, minute: int, c: B,
      channel: S -> B, s: Sum<C>, ghost samples: seq<R>, ghost how: Count<R, Row<S>, C>) returns (next: map<Rollup<S>, C>)
    requires Lawful(s) && Shows(minutes, samples, how, s) && SinceEpoch(samples, how) && minute >= 0 && seconds > 0
    ensures forall k: Rollup<S> {:trigger RollupShows(next, samples, k, how, s)} ::
              CellOf(k, channel) == Cell(seconds, ParentStart(minute, seconds), c) ==> RollupShows(next, samples, k, how, s)
    ensures forall k: Rollup<S> {:trigger k in next} ::
              CellOf(k, channel) != Cell(seconds, ParentStart(minute, seconds), c) ==> (k in next <==> k in rollups) && (k in next ==> next[k] == rollups[k])
  {
    var start, end := ParentStart(minute, seconds), ParentStart(minute, seconds) + seconds;
    var g := WindowOf(seconds, start, end, c, channel);
    ghost var window := Coarse(how, g);
    CoarseCoarsens(how, g);
    EmptyShows(window, s);
    var inserted := Fold(map[], minutes, g, s, [], samples, how, window);
    assert [] + samples == samples;
    var kept := map k | k in rollups && CellOf(k, channel) != Cell(seconds, start, c) :: rollups[k];
    next := kept + inserted;
    forall k: Rollup<S> | CellOf(k, channel) == Cell(seconds, start, c)
      ensures RollupShows(next, samples, k, how, s)
    {
      WindowTotal(samples, k, start, minute, c, channel, how, s);
      assert k in inserted <==> Occurs(samples, window, k);
      assert At(inserted, k, s) == Total(samples, window, k, s);
    }
    forall k: Rollup<S> | CellOf(k, channel) != Cell(seconds, start, c)
      ensures k !in inserted
    {
      assert k in inserted <==> Occurs(samples, window, k);
    }
  }

  // ------------------------------------------------------------ the invariant

  /** What a store is about, apart from its tables: whom rows belong to, how samples are counted, and what they weigh. */
  datatype Setting<!R(!new), !S, !B, !C(!new)> = Setting(channel: S -> B, how: Count<R, Row<S>, C>, sum: Sum<C>, weight: C -> int)

  ghost predicate Sound<R(!new), S, B, C(!new)>(e: Setting<R, S, B, C>) {
    Lawful(e.sum) && Positive(e.how, e.sum, e.weight)
  }

  /**
   * The samples behind the tables: those the minute rows still show, all that were
   * ever stored, those deleted since, the latest time at which old rows were deleted,
   * and the precomputed rows that were recomputed when a sample of theirs was gone.
   */
  datatype History<R, !S(==)> = History(kept: seq<R>, ever: seq<R>, gone: seq<R>, latest: int, lossy: iset<Rollup<S>>)

  /** Minutes from here on have never been deleted. */
  function MinuteCut<R, S(==)>(h: History<R, S>): int {
    h.latest - MINUTES_KEPT
  }

  /** Rows that have not been deleted for their age. */
  predicate Held<R, S(==)>(h: History<R, S>, k: Rollup<S>) {
    k.seconds in ROLLUPS && k.row.bucket >= h.latest - RollupKept(k.seconds)
  }

  ghost predicate Parted<R(!new), S(!new), C(!new)>(h: History<R, S>, how: Count<R, Row<S>, C>) {
    && multiset(h.ever) == multiset(h.kept) + multiset(h.gone) && SinceEpoch(h.ever, how)
    && (forall r :: r in h.gone && how.key(r).Some? ==> how.key(r).value.bucket < MinuteCut(h))
    && (forall k {:trigger k in h.lossy} :: k in h.lossy ==> Occurs(h.gone, Rolled(how, k.seconds), k))
  }

  /** A precomputed row shows all that was ever stored in it just when it is not lossy. */
  ghost predicate Consistent<R(!new), S(!new), B(!new), C(!new)>(minutes: map<Row<S>, C>, rollups: map<Rollup<S>, C>, h: History<R, S>, e: Setting<R, S, B, C>) {
    && Shows(minutes, h.kept, e.how, e.sum) && Parted(h, e.how)
    && (forall k: Rollup<S> {:trigger RollupShows(rollups, h.ever, k, e.how, e.sum)} ::
          Held(h, k) ==> (RollupShows(rollups, h.ever, k, e.how, e.sum) <==> k !in h.lossy))
  }

  lemma PartsOfEver<R(!new), S(!new), C(!new)>(h: History<R, S>, how: Count<R, Row<S>, C>)
    requires Parted(h, how)
    ensures forall r :: r in h.ever <==> r in h.kept || r in h.gone
    ensures SinceEpoch(h.kept, how) && SinceEpoch(h.gone, how)
  {
    assert forall r :: r in h.ever <==> r in multiset(h.ever);
    assert forall r :: r in h.kept <==> r in multiset(h.kept);
    assert forall r :: r in h.gone <==> r in multiset(h.gone);
  }

  /** No sample of a window from the cut on is gone. */
  lemma RecentIsWhole<R(!new), S(!new), C(!new)>(h: History<R, S>, k: Rollup<S>, how: Count<R, Row<S>, C>)
    requires Parted(h, how) && k.seconds > 0 && k.row.bucket >= MinuteCut(h)
    ensures !Occurs(h.gone, Rolled(how, k.seconds), k) && k !in h.lossy
  {
    PartsOfEver(h, how);
    RollsLater(h.gone, k, how);
  }

  /** Every precomputed row from the latest minute cut on is the sum of its minute rows, and of all ever stored in it. */
  lemma RecentRowsShow<R(!new), S(!new), B(!new), C(!new)>(minutes: map<Row<S>, C>, rollups: map<Rollup<S>, C>, h: History<R, S>, k: Rollup<S>, e: Setting<R, S, B, C>)
    requires Sound(e) && Consistent(minutes, rollups, h, e) && k.seconds in ROLLUPS && k.row.bucket >= MinuteCut(h)
    ensures RollupShows(rollups, h.kept, k, e.how, e.sum) && RollupShows(rollups, h.ever, k, e.how, e.sum)
  {
    RecentIsWhole(h, k, e.how);
    assert Held(h, k);
    assert RollupShows(rollups, h.ever, k, e.how, e.sum);
    CoarsePositive(e.how, Rolled(e.how, k.seconds), e.sum, e.weight);
    PartIsWhole(h.ever, h.kept, h.gone, Rolled(e.how, k.seconds), k, e.sum, e.weight);
  }

  /**
   * A window that is recomputed shows all that was ever stored in it just when none
   * of that has been deleted.
   */
  lemma LateWindow<R(!new), S(!new), B(!new), C(!new)>(next: map<Rollup<S>, C>, kept: seq<R>, ever: seq<R>, gone: seq<R>, k: Rollup<S>, e: Setting<R, S, B, C>)
    requires Sound(e) && multiset(ever) == multiset(kept) + multiset(gone) && RollupShows(next, kept, k, e.how, e.sum)
    ensures RollupShows(next, ever, k, e.how, e.sum) <==> forall r :: r in gone ==> Rolled(e.how, k.seconds).key(r) != Some(k)
  {
    CoarsePositive(e.how, Rolled(e.how, k.seconds), e.sum, e.weight);
    PartIsWhole(ever, kept, gone, Rolled(e.how, k.seconds), k, e.sum, e.weight);
  }

  /** The windows that a batch of samples falls into. */
  ghost function CellsOf<B>(affected: set<Row<B>>): set<Cell<B>> {
    set a, seconds | a in affected && seconds in ROLLUPS :: Cell(seconds, ParentStart(a.bucket, seconds), a.series)
  }

  ghost function AfterPersist<R(!new), S(!new), B(!new), C(!new)>(h: History<R, S>, batch: seq<R>, affected: set<Row<B>>, e: Setting<R, S, B, C>): History<R, S> {
    History(h.kept + batch, h.ever + batch, h.gone, h.latest, h.lossy + NewlyLossy(h.gone, affected, e))
  }

  ghost function NewlyLossy<R(!new), S(!new), B(!new), C(!new)>(gone: seq<R>, affected: set<Row<B>>, e: Setting<R, S, B, C>): iset<Rollup<S>> {
    iset k: Rollup<S> | CellOf(k, e.channel) in CellsOf(affected) && Occurs(gone, Rolled(e.how, k.seconds), k)
  }

  /** Exactly the rows of some windows have been recomputed. */
  ghost predicate Recomputed<R(!new), S(!new), B(!new), C(!new)>(next: map<Rollup<S>, C>, rollups: map<Rollup<S>, C>, samples: seq<R>, cells: set<Cell<B>>, e: Setting<R, S, B, C>) {
    && (forall k: Rollup<S> {:trigger RollupShows(next, samples, k, e.how, e.sum)} ::
          CellOf(k, e.channel) in cells ==> RollupShows(next, samples, k, e.how, e.sum))
    && (forall k: Rollup<S> {:trigger k in next} ::
          CellOf(k, e.channel) !in cells ==> (k in next <==> k in rollups) && (k in next ==> next[k] == rollups[k]))
  }

  /** The windows of a batch cover all the rows it counts in. */
  ghost predicate Covers<R(!new), S(!new), B(!new), C(!new)>(affected: set<Row<B>>, batch: seq<R>, e: Setting<R, S, B, C>) {
    forall r :: r in batch && e.how.key(r).Some? ==>
      var row := e.how.key(r).value; row.bucket >= 0 && Row(row.bucket, e.channel(row.series)) in affected
  }

  /** A batch adds nothing to windows other than its own. */
  lemma OutsideBatch<R(!new), S(!new), B(!new), C(!new)>(samples: seq<R>, batch: seq<R>, affected: set<Row<B>>, k: Rollup<S>, e: Setting<R, S, B, C>)
    requires Lawful(e.sum) && Covers(affected, batch, e)
    requires k.seconds in ROLLUPS && CellOf(k, e.channel) !in CellsOf(affected)
    ensures SameSamples(samples + batch, samples, k, e.how, e.sum)
  {
    var rolled := Rolled(e.how, k.seconds);
    OccursConcat(samples, batch, rolled, k);
    TotalConcat(samples, batch, rolled, k, e.sum);
    forall r | r in batch
      ensures rolled.key(r) != Some(k)
    {
      if e.how.key(r).Some? {
        var row := e.how.key(r).value;
        var a := Row(row.bucket, e.channel(row.series));
        assert a in affected;
        assert Cell(k.seconds, ParentStart(a.bucket, k.seconds), a.series) in CellsOf(affected);
      }
    }
    assert !Occurs(batch, rolled, k);
    TotalOfNone(batch, rolled, k, e.sum);
  }

  lemma PersistParts<R(!new), S(!new), B(!new), C(!new)>(h: History<R, S>, batch: seq<R>, affected: set<Row<B>>, e: Setting<R, S, B, C>)
    requires Parted(h, e.how) && Covers(affected, batch, e)
    ensures Parted(AfterPersist(h, batch, affected, e), e.how)
  {
    assert multiset(h.ever + batch) == multiset(h.ever) + multiset(batch);
    assert multiset(h.kept + batch) == multiset(h.kept) + multiset(batch);
  }

  lemma PersistKeeps<R(!new), S(!new), B(!new), C(!new)>(minutes: map<Row<S>, C>, rollups: map<Rollup<S>, C>, minutes2: map<Row<S>, C>, rollups2: map<Rollup<S>, C>,
      h: History<R, S>, batch: seq<R>, affected: set<Row<B>>, e: Setting<R, S, B, C>)
    requires Sound(e) && Consistent(minutes, rollups, h, e) && Covers(affected, batch, e)
    requires Shows(minutes2, h.kept + batch, e.how, e.sum)
    requires Recomputed(rollups2, rollups, h.kept + batch, CellsOf(affected), e)
    ensures Consistent(minutes2, rollups2, AfterPersist(h, batch, affected, e), e)
  {
    var g := AfterPersist(h, batch, affected, e);
    PersistParts(h, batch, affected, e);
    forall k: Rollup<S> | Held(g, k)
      ensures RollupShows(rollups2, g.ever, k, e.how, e.sum) <==> k !in g.lossy
    {
      if CellOf(k, e.channel) in CellsOf(affected) {
        assert RollupShows(rollups2, g.kept, k, e.how, e.sum);
        CoarsePositive(e.how, Rolled(e.how, k.seconds), e.sum, e.weight);
        PartIsWhole(g.ever, g.kept, g.gone, Rolled(e.how, k.seconds), k, e.sum, e.weight);
      } else {
        OutsideBatch(h.ever, batch, affected, k, e);
        assert RollupShows(rollups, h.ever, k, e.how, e.sum) <==> k !in h.lossy;
        assert k in rollups2 <==> k in rollups;
      }
    }
  }

  // ---------------------------------------------------------------- retention

  /** The samples that are counted in rows from `cut` on. */
  ghost function Since<R(!new), S, C(!new)>(samples: seq<R>, cut: int, how: Count<R, Row<S>, C>): seq<R> {
    if samples == [] then []
    else
      var rest, r := Since(samples[..|samples| - 1], cut, how), samples[|samples| - 1];
      if how.key(r).Some? && how.key(r).value.bucket >= cut then rest + [r] else rest
  }

  /** The other samples, those that are not counted at all included. */
  ghost function Before<R(!new), S, C(!new)>(samples: seq<R>, cut: int, how: Count<R, Row<S>, C>): seq<R> {
    if samples == [] then []
    else
      var rest, r := Before(samples[..|samples| - 1], cut, how), samples[|samples| - 1];
      if how.key(r).Some? && how.key(r).value.bucket >= cut then rest else rest + [r]
  }

  lemma {:induction false} BeforeAndSince<R(!new), S, C(!new)>(samples: seq<R>, cut: int, how: Count<R, Row<S>, C>)
    ensures multiset(samples) == multiset(Since(samples, cut, how)) + multiset(Before(samples, cut, how))
    ensures forall r :: r in Before(samples, cut, how) <==> r in samples && !(how.key(r).Some? && how.key(r).value.bucket >= cut)
  {
    if samples != [] {
      var rest, r := samples[..|samples| - 1], samples[|samples| - 1];
      BeforeAndSince(rest, cut, how);
      assert samples == rest + [r];
    }
  }

  lemma {:induction false} SinceKeeps<R(!new), S, C(!new)>(samples: seq<R>, cut: int, how: Count<R, Row<S>, C>)
    ensures forall r :: r in Since(samples, cut, how) <==> r in samples && how.key(r).Some? && how.key(r).value.bucket >= cut
  {
    if samples != [] {
      var rest, r := samples[..|samples| - 1], samples[|samples| - 1];
      SinceKeeps(rest, cut, how);
      assert samples == rest + [r];
    }
  }

  /** Dropping old samples changes no total that only counts later ones. */
  lemma {:induction false} SinceTotal<R(!new), S, K, C(!new)>(samples: seq<R>, cut: int, how: Count<R, Row<S>, C>, other: Count<R, K, C>, k: K, s: Sum<C>)
    requires forall r :: r in samples && other.key(r) == Some(k) ==> how.key(r).Some? && how.key(r).value.bucket >= cut
    ensures Total(Since(samples, cut, how), other, k, s) == Total(samples, other, k, s)
    ensures Occurs(Since(samples, cut, how), other, k) <==> Occurs(samples, other, k)
  {
    SinceKeeps(samples, cut, how);
    if samples != [] {
      var rest, r := samples[..|samples| - 1], samples[|samples| - 1];
      assert r in samples && forall q :: q in rest ==> q in samples;
      SinceTotal(rest, cut, how, other, k, s);
      if how.key(r).Some? && how.key(r).value.bucket >= cut {
        TotalSnoc(Since(rest, cut, how), r, other, k, s);
      }
    }
  }

  ghost function AfterRetain<R(!new), S, C(!new)>(h: History<R, S>, now: int, how: Count<R, Row<S>, C>): History<R, S> {
    History(Since(h.kept, now - MINUTES_KEPT, how), h.ever, h.gone + Before(h.kept, now - MINUTES_KEPT, how),
            if now > h.latest then now else h.latest, h.lossy)
  }

  function KeepMinutes<S(==), C>(minutes: map<Row<S>, C>, now: int): map<Row<S>, C> {
    map k | k in minutes && k.bucket >= now - MINUTES_KEPT :: minutes[k]
  }

  function KeepRollups<S(==), C>(rollups: map<Rollup<S>, C>, now: int): map<Rollup<S>, C> {
    map k | k in rollups && (k.seconds in ROLLUPS ==> k.row.bucket >= now - RollupKept(k.seconds)) :: rollups[k]
  }

  lemma KeptMinutesShow<R(!new), S(!new), C(!new)>(minutes: map<Row<S>, C>, samples: seq<R>, now: int, how: Count<R, Row<S>, C>, s: Sum<C>)
    requires Shows(minutes, samples, how, s)
    ensures Shows(KeepMinutes(minutes, now), Since(samples, now - MINUTES_KEPT, how), how, s)
  {
    var cut := now - MINUTES_KEPT;
    var left := Since(samples, cut, how);
    SinceKeeps(samples, cut, how);
    forall k: Row<S>
      ensures k in KeepMinutes(minutes, now) <==> Occurs(left, how, k)
      ensures At(KeepMinutes(minutes, now), k, s) == Total(left, how, k, s)
    {
      assert k in minutes <==> Occurs(samples, how, k);
      assert At(minutes, k, s) == Total(samples, how, k, s);
      if k.bucket >= cut {
        SinceTotal(samples, cut, how, how, k, s);
      } else {
        assert !Occurs(left, how, k);
        TotalOfNone(left, how, k, s);
      }
    }
  }

  /** All that rolls up to a window lies in it. */
  lemma RollsLater<R(!new), S(!new), C(!new)>(samples: seq<R>, k: Rollup<S>, how: Count<R, Row<S>, C>)
    requires SinceEpoch(samples, how) && k.seconds > 0
    ensures forall r :: r in samples && Rolled(how, k.seconds).key(r) == Some(k) ==> how.key(r).Some? && how.key(r).value.bucket >= k.row.bucket
  {
  }

  lemma RetainParts<R(!new), S(!new), C(!new)>(h: History<R, S>, now: int, how: Count<R, Row<S>, C>)
    requires Parted(h, how)
    ensures Parted(AfterRetain(h, now, how), how)
  {
    var g, out := AfterRetain(h, now, how), Before(h.kept, now - MINUTES_KEPT, how);
    BeforeAndSince(h.kept, now - MINUTES_KEPT, how);
    assert multiset(h.gone + out) == multiset(h.gone) + multiset(out);
    forall k | k in g.lossy
      ensures Occurs(g.gone, Rolled(how, k.seconds), k)
    {
      OccursConcat(h.gone, out, Rolled(how, k.seconds), k);
    }
  }

  lemma RetainKeeps<R(!new), S(!new), B(!new), C(!new)>(minutes: map<Row<S>, C>, rollups: map<Rollup<S>, C>, h: History<R, S>, now: int, e: Setting<R, S, B, C>)
    requires Consistent(minutes, rollups, h, e)
    ensures Consistent(KeepMinutes(minutes, now), KeepRollups(rollups, now), AfterRetain(h, now, e.how), e)
  {
    var g := AfterRetain(h, now, e.how);
    KeptMinutesShow(minutes, h.kept, now, e.how, e.sum);
    RetainParts(h, now, e.how);
    forall k: Rollup<S> | Held(g, k)
      ensures RollupShows(KeepRollups(rollups, now), g.ever, k, e.how, e.sum) <==> k !in g.lossy
    {
      assert RollupShows(rollups, h.ever, k, e.how, e.sum) <==> k !in h.lossy;
    }
  }

  // ------------------------------------------------------------ all operations

  /** What is done to a store: a batch is stored and its windows recomputed, or old rows are deleted. */
  datatype Op<R, B(==)> = Persisted(batch: seq<R>, affected: set<Row<B>>) | Retained(now: int)

  ghost function HistoryOf<R(!new), S(!new), B(!new), C(!new)>(ops: seq<Op<R, B>>, e: Setting<R, S, B, C>): History<R, S> {
    if ops == [] then History([], [], [], 0, iset{})
    else
      var h := HistoryOf(ops[..|ops| - 1], e);
      match ops[|ops| - 1]
      case Persisted(batch, affected) => AfterPersist(h, batch, affected, e)
      case Retained(now) => AfterRetain(h, now, e.how)
  }

  /** A sample has been stored at some time, and a later deletion was of rows newer than its own. */
  ghost predicate WasDeleted<R(!new), S(!new), B(!new), C(!new)>(ops: seq<Op<R, B>>, r: R, e: Setting<R, S, B, C>) {
    && e.how.key(r).Some?
    && exists i, j :: 0 <= i < j < |ops| && WasStored(ops[i], r) && Outdates(ops[j], e.how.key(r).value.bucket)
  }

  predicate WasStored<R(==), B>(op: Op<R, B>, r: R) {
    op.Persisted? && r in op.batch
  }

  predicate Outdates<R, B>(op: Op<R, B>, minute: int) {
    op.Retained? && minute < op.now - MINUTES_KEPT
  }

  /** A window was recomputed when a sample of one of its rows had been deleted. */
  ghost predicate Forgets<R(!new), S(!new), B(!new), C(!new)>(ops: seq<Op<R, B>>, k: Rollup<S>, e: Setting<R, S, B, C>) {
    exists l :: 0 <= l < |ops| && ForgetsAt(ops, l, k, e)
  }

  ghost predicate ForgetsAt<R(!new), S(!new), B(!new), C(!new)>(ops: seq<Op<R, B>>, l: nat, k: Rollup<S>, e: Setting<R, S, B, C>)
    requires l < |ops|
  {
    && ops[l].Persisted? && CellOf(k, e.channel) in CellsOf(ops[l].affected)
    && exists r :: Rolled(e.how, k.seconds).key(r) == Some(k) && WasDeleted(ops[..l], r, e)
  }

  lemma {:induction false} StoredExactly<R(!new), S(!new), B(!new), C(!new)>(ops: seq<Op<R, B>>, r: R, e: Setting<R, S, B, C>)
    ensures r in HistoryOf(ops, e).ever <==> exists i :: 0 <= i < |ops| && WasStored(ops[i], r)
  {
    if ops != [] {
      var rest, op := ops[..|ops| - 1], ops[|ops| - 1];
      StoredExactly(rest, r, e);
      assert forall i :: 0 <= i < |rest| ==> ops[i] == rest[i];
      assert WasStored(op, r) ==> WasStored(ops[|ops| - 1], r);
    }
  }

  lemma {:induction false} KeptOrGone<R(!new), S(!new), B(!new), C(!new)>(ops: seq<Op<R, B>>, r: R, e: Setting<R, S, B, C>)
    ensures var h := HistoryOf(ops, e); r in h.ever <==> r in h.kept || r in h.gone
  {
    if ops != [] {
      var rest, op := ops[..|ops| - 1], ops[|ops| - 1];
      KeptOrGone(rest, r, e);
      if op.Retained? {
        BeforeAndSince(HistoryOf(rest, e).kept, op.now - MINUTES_KEPT, e.how);
        SinceKeeps(HistoryOf(rest, e).kept, op.now - MINUTES_KEPT, e.how);
      }
    }
  }

  lemma {:induction false} GoneExactly<R(!new), S(!new), B(!new), C(!new)>(ops: seq<Op<R, B>>, r: R, e: Setting<R, S, B, C>)
    requires e.how.key(r).Some?
    ensures r in HistoryOf(ops, e).gone <==> WasDeleted(ops, r, e)
  {
    if ops != [] {
      var rest, op := ops[..|ops| - 1], ops[|ops| - 1];
      var h := HistoryOf(rest, e);
      GoneExactly(rest, r, e);
      StoredExactly(rest, r, e);
      KeptOrGone(rest, r, e);
      if op.Retained? {
        BeforeAndSince(h.kept, op.now - MINUTES_KEPT, e.how);
        DeletedNow(ops, r, e);
      } else {
        DeletedBefore(ops, r, e);
      }
    }
  }

  lemma DeletedNow<R(!new), S(!new), B(!new), C(!new)>(ops: seq<Op<R, B>>, r: R, e: Setting<R, S, B, C>)
    requires ops != [] && e.how.key(r).Some?
    ensures var rest, op := ops[..|ops| - 1], ops[|ops| - 1];
            WasDeleted(ops, r, e) <==>
              (WasDeleted(rest, r, e) || (Outdates(op, e.how.key(r).value.bucket) && exists i :: 0 <= i < |rest| && WasStored(rest[i], r)))
  {
    var rest, op, minute := ops[..|ops| - 1], ops[|ops| - 1], e.how.key(r).value.bucket;
    if WasDeleted(ops, r, e) {
      var i, j :| 0 <= i < j < |ops| && WasStored(ops[i], r) && Outdates(ops[j], minute);
      assert WasStored(rest[i], r);
      assert j < |rest| ==> Outdates(rest[j], minute);
    }
    if WasDeleted(rest, r, e) {
      var i, j :| 0 <= i < j < |rest| && WasStored(rest[i], r) && Outdates(rest[j], minute);
      assert WasStored(ops[i], r) && Outdates(ops[j], minute);
    }
    if Outdates(op, minute) && exists i :: 0 <= i < |rest| && WasStored(rest[i], r) {
      var i :| 0 <= i < |rest| && WasStored(rest[i], r);
      assert WasStored(ops[i], r) && Outdates(ops[|ops| - 1], minute);
    }
  }

  lemma DeletedBefore<R(!new), S(!new), B(!new), C(!new)>(ops: seq<Op<R, B>>, r: R, e: Setting<R, S, B, C>)
    requires ops != [] && ops[|ops| - 1].Persisted? && e.how.key(r).Some?
    ensures WasDeleted(ops, r, e) <==> WasDeleted(ops[..|ops| - 1], r, e)
  {
    DeletedNow(ops, r, e);
  }

  /** The lossy rows are just those of which a sample was stored, then deleted, before their window was recomputed. */
  lemma {:induction false} LossyExactly<R(!new), S(!new), B(!new), C(!new)>(ops: seq<Op<R, B>>, k: Rollup<S>, e: Setting<R, S, B, C>)
    ensures k in HistoryOf(ops, e).lossy <==> Forgets(ops, k, e)
  {
    if ops != [] {
      var rest, op := ops[..|ops| - 1], ops[|ops| - 1];
      LossyExactly(rest, k, e);
      ForgetsSnoc(ops, k, e);
      if op.Persisted? {
        forall r | Rolled(e.how, k.seconds).key(r) == Some(k)
          ensures r in HistoryOf(rest, e).gone <==> WasDeleted(rest, r, e)
        {
          GoneExactly(rest, r, e);
        }
      }
    }
  }

  lemma ForgetsSnoc<R(!new), S(!new), B(!new), C(!new)>(ops: seq<Op<R, B>>, k: Rollup<S>, e: Setting<R, S, B, C>)
    requires ops != []
    ensures Forgets(ops, k, e) <==> Forgets(ops[..|ops| - 1], k, e) || ForgetsAt(ops, |ops| - 1, k, e)
  {
    var rest := ops[..|ops| - 1];
    forall l: nat | l < |rest|
      ensures ForgetsAt(ops, l, k, e) <==> ForgetsAt(rest, l, k, e)
    {
      assert ops[..l] == rest[..l] && ops[l] == rest[l];
    }
  }

  /**
   * After any operations a precomputed row that is still held shows all that was ever
   * stored in it, unless its window was recomputed when a sample of the row had been
   * stored and then deleted; and then it does not.
   */
  lemma RowsExactly<R(!new), S(!new), B(!new), C(!new)>(minutes: map<Row<S>, C>, rollups: map<Rollup<S>, C>, ops: seq<Op<R, B>>, k: Rollup<S>, e: Setting<R, S, B, C>)
    requires Consistent(minutes, rollups, HistoryOf(ops, e), e) && Held(HistoryOf(ops, e), k)
    ensures RollupShows(rollups, HistoryOf(ops, e).ever, k, e.how, e.sum) <==> !Forgets(ops, k, e)
  {
    LossyExactly(ops, k, e);
  }

  // ---------------------------------------------------------------- the store

  lemma RecomputedStep<R(!new), S(!new), B(!new), C(!new)>(next: map<Rollup<S>, C>, mid: map<Rollup<S>, C>, rollups: map<Rollup<S>, C>, samples: seq<R>,
                                                        cells: set<Cell<B>>, c: Cell<B>, e: Setting<R, S, B, C>)
    requires Recomputed(mid, rollups, samples, cells, e)
    requires Recomputed(next, mid, samples, {c}, e)
    ensures Recomputed(next, rollups, samples, cells + {c}, e)
  {
    forall k: Rollup<S> | CellOf(k, e.channel) in cells + {c}
      ensures RollupShows(next, samples, k, e.how, e.sum)
    {
      if CellOf(k, e.channel) != c {
        assert RollupShows(mid, samples, k, e.how, e.sum);
        assert k in next <==> k in mid;
      }
    }
    forall k: Rollup<S> | CellOf(k, e.channel) !in cells + {c}
      ensures (k in next <==> k in rollups) && (k in next ==> next[k] == rollups[k])
    {
      assert k in next <==> k in mid;
    }
  }

  function WindowsOf<B(==)>(a: Row<B>, n: nat): set<Cell<B>>
    requires n <= |ROLLUPS|
  {
    if n == 0 then {} else WindowsOf(a, n - 1) + {Cell(ROLLUPS[n - 1], ParentStart(a.bucket, ROLLUPS[n - 1]), a.series)}
  }

  lemma AllWindows<B(!new)>(affected: set<Row<B>>, a: Row<B>)
    ensures CellsOf(affected + {a}) == CellsOf(affected) + WindowsOf(a, |ROLLUPS|)
  {
    assert WindowsOf(a, 4) == set seconds | seconds in ROLLUPS :: Cell(seconds, ParentStart(a.bucket, seconds), a.series) by {
      assert WindowsOf(a, 1) == {Cell(300, ParentStart(a.bucket, 300), a.series)};
      assert WindowsOf(a, 2) == WindowsOf(a, 1) + {Cell(3600, ParentStart(a.bucket, 3600), a.series)};
      assert WindowsOf(a, 3) == WindowsOf(a, 2) + {Cell(43200, ParentStart(a.bucket, 43200), a.series)};
      assert WindowsOf(a, 4) == WindowsOf(a, 3) + {Cell(86400, ParentStart(a.bucket, 86400), a.series)};
    }
  }

  /** The precomputed rows of one window size that start within some time. */
  function Loaded<S(==), C>(rollups: map<Rollup<S>, C>, seconds: nat, start: int, end: int): map<Row<S>, C> {
    map k | k in rollups && k.seconds == seconds && start <= k.row.bucket < end :: k.row := rollups[k]
  }

  class Store<R(!new), S(!new, ==), B(!new, ==), C(!new)> {
    const e: Setting<R, S, B, C>
    var minutes: map<Row<S>, C>
    var rollups: map<Rollup<S>, C>
    ghost var history: History<R, S>
    ghost var ops: seq<Op<R, B>>

    ghost predicate Valid()
      reads this
    {
      history == HistoryOf(ops, e) && Consistent(minutes, rollups, history, e)
    }

    constructor (e: Setting<R, S, B, C>)
      ensures Valid() && this.e == e && minutes == map[] && ops == []
    {
      this.e := e;
      minutes, rollups, history, ops := map[], map[], History([], [], [], 0, iset{}), [];
    }

    /** Adds a batch in one transaction. */
    method Persist(snap: map<Row<S>, C>, affected: set<Row<B>>, ghost batch: seq<R>)
      requires Sound(e) && Valid() && Shows(snap, batch, e.how, e.sum) && Covers(affected, batch, e)
      requires forall a :: a in affected ==> a.bucket >= 0
      modifies this
      ensures Valid() && ops == old(ops) + [Persisted(batch, affected)] && history.ever == old(history.ever) + batch
    {
      PersistRows(snap, affected, batch);
    }

    /** Upserts the rows of a batch, then recomputes its windows. */
    method PersistRows(snap: map<Row<S>, C>, affected: set<Row<B>>, ghost batch: seq<R>)
      requires Sound(e) && Valid() && Shows(snap, batch, e.how, e.sum) && Covers(affected, batch, e)
      requires forall a :: a in affected ==> a.bucket >= 0
      modifies this
      ensures Valid() && ops == old(ops) + [Persisted(batch, affected)] && history == AfterPersist(old(history), batch, affected, e)
      ensures Recomputed(rollups, old(rollups), history.kept, CellsOf(affected), e)
    {
      ghost var samples := history.kept + batch;
      var upserted := Merge(minutes, snap, e.sum);
      MergeShows(upserted, minutes, snap, history.kept, batch, e.how, e.sum);
      PartsOfEver(history, e.how);
      var recomputed := RecomputeAll(upserted, rollups, affected, samples, history.kept, batch);
      PersistKeeps(minutes, rollups, upserted, recomputed, history, batch, affected, e);
      Log(Persisted(batch, affected));
      minutes, rollups := upserted, recomputed;
    }

    /** Notes an operation. */
    ghost method Log(op: Op<R, B>)
      requires history == HistoryOf(ops, e)
      modifies this`history, this`ops
      ensures ops == old(ops) + [op] && history == HistoryOf(ops, e)
      ensures history == match op
                         case Persisted(batch, affected) => AfterPersist(old(history), batch, affected, e)
                         case Retained(now) => AfterRetain(old(history), now, e.how)
    {
      assert (ops + [op])[..|ops|] == ops;
      ops := ops + [op];
      history := HistoryOf(ops, e);
    }

    method RecomputeAll(table: map<Row<S>, C>, was: map<Rollup<S>, C>, affected: set<Row<B>>, ghost samples: seq<R>, ghost kept: seq<R>, ghost batch: seq<R>)
        returns (next: map<Rollup<S>, C>)
      requires Lawful(e.sum) && samples == kept + batch && Shows(table, samples, e.how, e.sum)
      requires SinceEpoch(kept, e.how) && Covers(affected, batch, e)
      requires forall a :: a in affected ==> a.bucket >= 0
      ensures Recomputed(next, was, samples, CellsOf(affected), e)
    {
      next := was;
      var left := affected;
      assert CellsOf(affected - left) == {};
      while left != {}
        invariant left <= affected && Recomputed(next, was, samples, CellsOf(affected - left), e)
        decreases |left|
      {
        var a :| a in left;
        next := RecomputeRow(table, next, was, a, samples, CellsOf(affected - left));
        AllWindows(affected - left, a);
        assert affected - left + {a} == affected - (left - {a});
        left := left - {a};
      }
      assert affected - left == affected;
    }

    method RecomputeRow(table: map<Row<S>, C>, mid: map<Rollup<S>, C>, ghost was: map<Rollup<S>, C>, a: Row<B>, ghost samples: seq<R>, ghost cells: set<Cell<B>>)
        returns (next: map<Rollup<S>, C>)
      requires Lawful(e.sum) && Shows(table, samples, e.how, e.sum) && SinceEpoch(samples, e.how) && a.bucket >= 0
      requires Recomputed(mid, was, samples, cells, e)
      ensures Recomputed(next, was, samples, cells + WindowsOf(a, |ROLLUPS|), e)
    {
      next := mid;
      assert cells + WindowsOf(a, 0) == cells;
      for i := 0 to |ROLLUPS|
        invariant Recomputed(next, was, samples, cells + WindowsOf(a, i), e)
      {
        var before := next;
        next := Recompute(table, before, ROLLUPS[i], a.bucket, a.series, e.channel, e.sum, samples, e.how);
        ghost var c := Cell(ROLLUPS[i], ParentStart(a.bucket, ROLLUPS[i]), a.series);
        assert Recomputed(next, before, samples, {c}, e);
        RecomputedStep(next, before, was, samples, cells + WindowsOf(a, i), c, e);
        assert cells + WindowsOf(a, i) + {c} == cells + WindowsOf(a, i + 1);
      }
    }

    /** What `RowsExactly` says, of this store. */
    lemma HeldRowsExactly(k: Rollup<S>)
      requires Valid() && Held(history, k)
      ensures RollupShows(rollups, history.ever, k, e.how, e.sum) <==> !Forgets(ops, k, e)
    {
      RowsExactly(minutes, rollups, ops, k, e);
    }

    /** Deletes minute rows after seven days and precomputed rows after theirs. */
    method Retain(now: int)
      requires Valid()
      modifies this
      ensures Valid() && ops == old(ops) + [Retained(now)] && history == AfterRetain(old(history), now, e.how)
      ensures minutes == KeepMinutes(old(minutes), now) && rollups == KeepRollups(old(rollups), now)
    {
      RetainKeeps(minutes, rollups, history, now, e);
      Log(Retained(now));
      minutes, rollups := KeepMinutes(minutes, now), KeepRollups(rollups, now);
    }
  }

  // ------------------------------------------------------------- late samples

  function MinuteRow(m: int): Option<Row<()>> {
    Some(Row(m, ()))
  }

  function OneEach(m: int): int {
    1
  }

  function NoSeries(s: ()): () {
    ()
  }

  function Plain(n: int): int {
    n
  }

  const MINUTES: Setting<int, (), (), int> := Setting(NoSeries, Count(MinuteRow, OneEach), COUNTS, Plain)

  /**
   * A sample of the first minute of a day is stored, deleted a week later, and then
   * one of the second minute comes in: the day counts one sample of the two.
   */
  method LateSampleForgets() returns (counted: int, ghost ever: seq<int>)
    ensures ever == [0, 60] && Total(ever, Rolled(MINUTES.how, DAY), Rollup(DAY, Row(0, ())), COUNTS) == 2
    ensures counted == 1
  {
    var store := new Store(MINUTES);
    MinutesSound();
    OneShows(0);
    OneShows(60);
    store.Persist(map[Row(0, ()) := 1], {Row(0, ())}, [0]);
    store.Retain(MINUTES_KEPT + 60);
    ghost var before := store.rollups;
    store.PersistRows(map[Row(60, ()) := 1], {Row(60, ())}, [60]);
    ever := store.history.ever;
    FirstIsGone();
    DayForgets(store.rollups, before);
    counted := At(store.rollups, Rollup(DAY, Row(0, ())), COUNTS);
  }

  lemma MinutesSound()
    ensures Sound(MINUTES)
  {
    forall a: int, b: int
      ensures Adds(COUNTS, Plain, a, b)
    {
    }
    forall m: int
      ensures Weighs(MINUTES.how, Plain, m)
    {
      assert MINUTES.how.value(m) == OneEach(m);
    }
  }

  lemma OneShows(m: int)
    ensures Shows(map[Row(m, ()) := 1], [m], MINUTES.how, COUNTS)
  {
    EmptyShows(MINUTES.how, COUNTS);
    RowShows(map[], [], m, Row(m, ()), 1, MINUTES.how, COUNTS);
    assert [] + [m] == [m];
  }

  lemma FirstIsGone()
    ensures Since([] + [0], MINUTES_KEPT + 60 - MINUTES_KEPT, MINUTES.how) + [60] == [60] && [] + [0] + [60] == [0, 60]
  {
    assert ([] + [0])[..0] == [];
    assert Since([] + [0], 60, MINUTES.how) == [];
  }

  lemma DayForgets(next: map<Rollup<()>, int>, rollups: map<Rollup<()>, int>)
    requires Recomputed(next, rollups, [60], CellsOf({Row(60, ())}), MINUTES)
    ensures var day := Rollup(DAY, Row(0, ()));
            At(next, day, COUNTS) == 1 && Total([0, 60], Rolled(MINUTES.how, DAY), day, COUNTS) == 2
  {
    var day := Rollup(DAY, Row(0, ()));
    assert Row(60, ()) in {Row(60, ())} && DAY in ROLLUPS && ParentStart(60, DAY) == 0;
    assert CellOf(day, MINUTES.channel) in CellsOf({Row(60, ())});
    assert RollupShows(next, [60], day, MINUTES.how, MINUTES.sum);
    TotalSnoc([], 60, Rolled(MINUTES.how, DAY), day, COUNTS);
    TotalSnoc([], 0, Rolled(MINUTES.how, DAY), day, COUNTS);
    TotalSnoc([0], 60, Rolled(MINUTES.how, DAY), day, COUNTS);
    assert [] + [60] == [60] && [] + [0] == [0] && [0] + [60] == [0, 60];
  }
}

/**
 * Reading the channel monitor: the precomputed rows of a time range are combined
 * with the buffered minutes that fall into it, then grouped.  The outcome is the
 * direct aggregation of all the records concerned.
 */
module ChannelQuery {
  import opened ChannelMemory
  import opened ChannelStore
  import opened Tally
  import opened Wrappers
  import Text

  /** A time range in Unix seconds and the width of its buckets. */
  datatype Range = Range(start: int, end: int, bucket: nat)

  /** How long the named range is, and how wide its buckets are. */
  function Width(name: string): (nat, nat) {
    var n := Text.TrimSpace(name);
    if n == "24h" then (86400, 3600)
    else if n == "7d" then (7 * 86400, 43200)
    else if n == "30d" then (30 * 86400, 86400)
    else (90 * 60, 300)
  }

  function ParseRange(now: int, name: string): Range {
    var (window, size) := Width(name);
    var end := now - TruncMod(now, size) + size;
    Range(end - window, end, size)
  }

  predicate Aligned(w: Range) {
    w.bucket > 0 && w.start % w.bucket == 0 && w.end % w.bucket == 0 && w.start <= w.end
  }

  lemma MultipleMod(q: int, size: nat)
    requires size > 0
    ensures (q * size) % size == 0
  {
    var r := (q * size) % size;
    assert q * size == (q * size) / size * size + r;
    Between(q - (q * size) / size, size);
  }

  lemma Between(d: int, size: nat)
    requires 0 <= d * size < size
    ensures d == 0
  {
  }

  /** Ranges consist of whole buckets, the last of which is the current one. */
  lemma RangeAligned(now: nat, name: string)
    ensures var w := ParseRange(now, name);
            Aligned(w) && w.bucket in ROLLUPS && w.end - w.bucket <= now < w.end
  {
    var (window, size) := Width(name);
    var w := ParseRange(now, name);
    assert w.end == (now / size + 1) * size;
    MultipleMod(now / size + 1, size);
    assert window % size == 0;
    assert w.start == w.end - window;
  }

  /**
   * No range reaches back to precomputed rows that may have been deleted, and all
   * but the longest stay clear of deleted minutes.
   */
  lemma RangeIsKept(now: nat, name: string, latest: int)
    requires latest <= now
    ensures var w := ParseRange(now, name);
            && w.start >= latest - RollupKept(w.bucket)
            && (Text.TrimSpace(name) != "30d" ==> w.start >= latest - MINUTES_KEPT)
  {
    RangeAligned(now, name);
  }

  // ------------------------------------------------------- stored and pending

  /** The bucket of the range that a minute is displayed in. */
  function Display<S>(w: Range, matches: S -> bool): Row<S> -> Option<Row<S>> {
    (row: Row<S>) =>
      if w.start <= row.bucket < w.end && matches(row.series) then Some(Row(ParentStart(row.bucket, w.bucket), row.series)) else None
  }

  /** The direct aggregation that a query asks for. */
  function Asked<R(!new), S, C(!new)>(how: Count<R, Row<S>, C>, w: Range, matches: S -> bool): Count<R, Row<S>, C> {
    Coarse(how, Display(w, matches))
  }

  function Every<S>(s: S): bool {
    true
  }

  lemma AskedKey<R(!new), S, C(!new)>(how: Count<R, Row<S>, C>, w: Range, r: R)
    ensures Asked(how, w, Every).key(r)
         == match how.key(r)
            case Some(k) => (if w.start <= k.bucket < w.end then Some(Row(ParentStart(k.bucket, w.bucket), k.series)) else None)
            case None => None
  {
    if how.key(r).Some? {
      var k := how.key(r).value;
      assert Every(k.series);
      assert Asked(how, w, Every).key(r) == Via(Some(k), Display(w, Every)) == Display(w, Every)(k);
    }
  }

  /** No row of the range was recomputed when a sample of it had been deleted. */
  ghost predicate Complete<R(!new), S(!new)>(h: History<R, S>, w: Range) {
    forall k :: k in h.lossy && k.seconds == w.bucket ==> !(w.start <= k.row.bucket < w.end)
  }

  lemma DisplayedInside(bucket: nat, w: Range)
    requires Aligned(w)
    ensures w.start <= bucket < w.end <==> w.start <= ParentStart(bucket, w.bucket) < w.end
  {
    var q, size := bucket / w.bucket, w.bucket;
    var start := ParentStart(bucket, size);
    assert start == q * size;
    MultipleMod(q, size);
    Grid(start, bucket, w.start, size);
    Grid(start, bucket, w.end, size);
  }

  /** A multiple of the size is at most the minute just when it is at most the minute's window. */
  lemma Grid(start: int, minute: int, edge: int, size: nat)
    requires size > 0 && start % size == 0 && edge % size == 0 && start <= minute < start + size
    ensures edge <= minute <==> edge <= start
  {
    var a, b := start / size, edge / size;
    Whole(start, size);
    Whole(edge, size);
    Ladder(a, b, size);
    Ladder(b, a, size);
  }

  lemma Whole(n: int, size: nat)
    requires size > 0 && n % size == 0
    ensures n == n / size * size
  {
  }

  lemma Ladder(a: int, b: int, size: nat)
    ensures a < b ==> a * size + size <= b * size
  {
    if a < b {
      Times(0, b - a, size);
      assert (b - a) * size == b * size - a * size;
    }
  }

  /** What is loaded for a range shows all records ever stored in it, just when no row of the range is lossy. */
  lemma LoadedShows<R(!new), S(!new), B(!new), C(!new)>(minutes: map<Row<S>, C>, rollups: map<Rollup<S>, C>, h: History<R, S>, w: Range, e: Setting<R, S, B, C>)
    requires Consistent(minutes, rollups, h, e) && Aligned(w) && w.bucket in ROLLUPS && w.start >= h.latest - RollupKept(w.bucket)
    ensures Shows(Loaded(rollups, w.bucket, w.start, w.end), h.ever, Asked(e.how, w, Every), e.sum) <==> Complete(h, w)
  {
    var rows, asked := Loaded(rollups, w.bucket, w.start, w.end), Asked(e.how, w, Every);
    if Complete(h, w) {
      forall k: Row<S>
        ensures ShowsAt(rows, h.ever, k, asked, e.sum)
      {
        LoadedRow(minutes, rollups, h, w, k, e);
      }
      AllRowsShow(rows, h.ever, asked, e.sum);
    } else {
      var k :| k in h.lossy && k.seconds == w.bucket && w.start <= k.row.bucket < w.end;
      LoadedRow(minutes, rollups, h, w, k.row, e);
      assert Shows(rows, h.ever, asked, e.sum) ==> ShowsAt(rows, h.ever, k.row, asked, e.sum);
    }
  }

  ghost predicate ShowsAt<R(!new), K(!new), C(!new)>(table: map<K, C>, samples: seq<R>, k: K, how: Count<R, K, C>, s: Sum<C>) {
    (k in table <==> Occurs(samples, how, k)) && At(table, k, s) == Total(samples, how, k, s)
  }

  lemma AllRowsShow<R(!new), K(!new), C(!new)>(table: map<K, C>, samples: seq<R>, how: Count<R, K, C>, s: Sum<C>)
    requires forall k :: ShowsAt(table, samples, k, how, s)
    ensures Shows(table, samples, how, s)
  {
    forall k
      ensures k in table <==> Occurs(samples, how, k)
      ensures At(table, k, s) == Total(samples, how, k, s)
    {
      assert ShowsAt(table, samples, k, how, s);
    }
  }

  lemma LoadedRow<R(!new), S(!new), B(!new), C(!new)>(minutes: map<Row<S>, C>, rollups: map<Rollup<S>, C>, h: History<R, S>, w: Range, k: Row<S>, e: Setting<R, S, B, C>)
    requires Consistent(minutes, rollups, h, e) && Aligned(w) && w.bucket in ROLLUPS && w.start >= h.latest - RollupKept(w.bucket)
    ensures ShowsAt(Loaded(rollups, w.bucket, w.start, w.end), h.ever, k, Asked(e.how, w, Every), e.sum)
       <==> !(Rollup(w.bucket, k) in h.lossy && w.start <= k.bucket < w.end)
  {
    RowLoaded(rollups, h, w, k, e);
    if w.start <= k.bucket < w.end {
      assert Held(h, Rollup(w.bucket, k));
      assert RollupShows(rollups, h.ever, Rollup(w.bucket, k), e.how, e.sum) <==> Rollup(w.bucket, k) !in h.lossy;
    }
  }

  /** Ranges that stay clear of deleted minutes are complete. */
  lemma RecentIsComplete<R(!new), S(!new), C(!new)>(h: History<R, S>, w: Range, how: Count<R, Row<S>, C>)
    requires Parted(h, how) && Aligned(w) && w.start >= MinuteCut(h)
    ensures Complete(h, w)
  {
    forall k | k in h.lossy && k.seconds == w.bucket
      ensures !(w.start <= k.row.bucket < w.end)
    {
      if w.start <= k.row.bucket {
        RecentIsWhole(h, k, how);
      }
    }
  }

  lemma RowLoaded<R(!new), S(!new), B(!new), C(!new)>(rollups: map<Rollup<S>, C>, h: History<R, S>, w: Range, k: Row<S>, e: Setting<R, S, B, C>)
    requires SinceEpoch(h.ever, e.how) && Aligned(w)
    ensures var rows, asked, wide := Loaded(rollups, w.bucket, w.start, w.end), Asked(e.how, w, Every), Rollup(w.bucket, k);
            if w.start <= k.bucket < w.end then
              && (k in rows <==> wide in rollups) && (k in rows ==> rows[k] == rollups[wide])
              && (Occurs(h.ever, asked, k) <==> Occurs(h.ever, Rolled(e.how, w.bucket), wide))
              && Total(h.ever, asked, k, e.sum) == Total(h.ever, Rolled(e.how, w.bucket), wide, e.sum)
            else
              k !in rows && !Occurs(h.ever, asked, k) && Total(h.ever, asked, k, e.sum) == e.sum.zero
  {
    var asked, wide := Asked(e.how, w, Every), Rollup(w.bucket, k);
    forall r | r in h.ever
      ensures if w.start <= k.bucket < w.end then asked.key(r) == Some(k) <==> Rolled(e.how, w.bucket).key(r) == Some(wide)
              else asked.key(r) != Some(k)
    {
      AskedKey(e.how, w, r);
      if e.how.key(r).Some? {
        DisplayedInside(e.how.key(r).value.bucket, w);
      }
    }
    if w.start <= k.bucket < w.end {
      SameTotal(h.ever, asked, Rolled(e.how, w.bucket), k, wide, e.sum);
    } else {
      assert !Occurs(h.ever, asked, k);
      TotalOfNone(h.ever, asked, k, e.sum);
    }
  }

  lemma MatchingShows<R(!new), S(!new), C(!new)>(stored: map<Row<S>, C>, x: seq<R>, how: Count<R, Row<S>, C>, w: Range, matches: S -> bool, s: Sum<C>)
    requires Shows(stored, x, Asked(how, w, Every), s)
    ensures Shows(map k | k in stored && matches(k.series) :: stored[k], x, Asked(how, w, matches), s)
  {
    var kept := map k | k in stored && matches(k.series) :: stored[k];
    var every, asked := Asked(how, w, Every), Asked(how, w, matches);
    forall k: Row<S>
      ensures k in kept <==> Occurs(x, asked, k)
      ensures At(kept, k, s) == Total(x, asked, k, s)
    {
      assert k in stored <==> Occurs(x, every, k);
      assert At(stored, k, s) == Total(x, every, k, s);
      if matches(k.series) {
        forall r | r in x
          ensures asked.key(r) == Some(k) <==> every.key(r) == Some(k)
        {
          AskedKey(how, w, r);
        }
        SameTotal(x, asked, every, k, k, s);
      } else {
        assert !Occurs(x, asked, k);
        TotalOfNone(x, asked, k, s);
      }
    }
  }

  /**
   * The stored rows of a range and the buffered minutes that fall into it, both
   * filtered.  The outcome shows all the records of both that the query asks for.
   */
  method CombineTable<R(!new), S(!new, ==), C(!new)>(stored: map<Row<S>, C>, pending: map<Row<S>, C>, w: Range, matches: S -> bool, s: Sum<C>,
      ghost x: seq<R>, ghost y: seq<R>, ghost how: Count<R, Row<S>, C>) returns (combined: map<Row<S>, C>)
    requires Lawful(s) && Shows(stored, x, Asked(how, w, Every), s) && Shows(pending, y, how, s)
    ensures Shows(combined, x + y, Asked(how, w, matches), s)
  {
    MatchingShows(stored, x, how, w, matches, s);
    CoarseCoarsens(how, Display(w, matches));
    combined := map k | k in stored && matches(k.series) :: stored[k];
    combined := Fold(combined, pending, Display(w, matches), s, x, y, how, Asked(how, w, matches));
  }

  // ------------------------------------------------------ trends and totals

  function ToBucket<S>(row: Row<S>): Option<int> {
    Some(row.bucket)
  }

  function ToAll<S>(row: Row<S>): Option<()> {
    Some(())
  }

  function SumOf<C(!new)>(points: seq<C>, s: Sum<C>): C {
    if points == [] then s.zero else s.plus(SumOf(points[..|points| - 1], s), points[|points| - 1])
  }

  /** The rows that start before some time. */
  function Earlier<S>(edge: int): Row<S> -> Option<()> {
    (row: Row<S>) => if row.bucket < edge then Some(()) else None
  }

  /** The totals of two disjoint parts add up. */
  lemma {:induction false} SplitTotal<R(!new), K, L, M, C(!new)>(samples: seq<R>, all: Count<R, K, C>, k: K, a: Count<R, L, C>, l: L, b: Count<R, M, C>, m: M, s: Sum<C>)
    requires Lawful(s)
    requires forall r :: r in samples ==>
               && all.value(r) == a.value(r) == b.value(r) && !(a.key(r) == Some(l) && b.key(r) == Some(m))
               && (all.key(r) == Some(k) <==> a.key(r) == Some(l) || b.key(r) == Some(m))
    ensures Total(samples, all, k, s) == s.plus(Total(samples, a, l, s), Total(samples, b, m, s))
  {
    if samples == [] {
      PlusZero(s, s.zero);
    } else {
      var rest, r := samples[..|samples| - 1], samples[|samples| - 1];
      assert r in samples && forall q :: q in rest ==> q in samples;
      SplitTotal(rest, all, k, a, l, b, m, s);
      var x, y, v := Total(rest, a, l, s), Total(rest, b, m, s), a.value(r);
      Swap(x, y, v, s);
      assert s.plus(s.plus(x, y), v) == s.plus(x, s.plus(y, v));
    }
  }

  /** One trend point per bucket of the range, zero where no row is. */
  method SeriesPoints<C(!new)>(w: Range, buckets: map<int, C>, s: Sum<C>) returns (points: seq<C>)
    requires Aligned(w)
    ensures w.start + |points| * w.bucket == w.end
    ensures forall i :: 0 <= i < |points| ==> points[i] == At(buckets, w.start + i * w.bucket, s)
  {
    points := [];
    var ts := w.start;
    while ts < w.end
      invariant ts == w.start + |points| * w.bucket
      invariant forall i :: 0 <= i < |points| ==> points[i] == At(buckets, w.start + i * w.bucket, s)
      invariant ts % w.bucket == 0 && ts <= w.end
    {
      NextMultiple(ts, w.end, w.bucket);
      points := points + [At(buckets, ts, s)];
      ts := ts + w.bucket;
    }
  }

  lemma NextMultiple(ts: int, end: int, size: nat)
    requires size > 0 && ts % size == 0 && end % size == 0 && ts < end
    ensures (ts + size) % size == 0 && ts + size <= end
  {
    Whole(ts, size);
    Whole(end, size);
    Ladder(ts / size, end / size, size);
    if ts / size >= end / size {
      Ladder(end / size, ts / size, size);
    }
    MultipleMod(ts / size + 1, size);
    assert (ts / size + 1) * size == ts / size * size + size;
  }

  /** A displayed row lies on the grid of buckets. */
  ghost predicate OnGrid<R(!new), S(!new), C(!new)>(records: seq<R>, asked: Count<R, Row<S>, C>, w: Range) {
    w.bucket > 0 && forall r :: r in records && asked.key(r).Some? ==>
      var b := asked.key(r).value.bucket; w.start <= b < w.end && b % w.bucket == 0
  }

  lemma AskedOnGrid<R(!new), S(!new), C(!new)>(records: seq<R>, how: Count<R, Row<S>, C>, w: Range, matches: S -> bool)
    requires Aligned(w) && SinceEpoch(records, how)
    ensures OnGrid(records, Asked(how, w, matches), w)
  {
    forall r | r in records && Asked(how, w, matches).key(r).Some?
      ensures var b := Asked(how, w, matches).key(r).value.bucket; w.start <= b < w.end && b % w.bucket == 0
    {
      GridMinute(how.key(r).value.bucket, w);
    }
  }

  lemma GridMinute(minute: nat, w: Range)
    requires Aligned(w) && w.start <= minute < w.end
    ensures var b := ParentStart(minute, w.bucket); w.start <= b < w.end && b % w.bucket == 0
  {
    DisplayedInside(minute, w);
    MultipleMod(minute / w.bucket, w.bucket);
    assert ParentStart(minute, w.bucket) == minute / w.bucket * w.bucket;
  }

  /** The first `n` trend points sum to all that starts before the next. */
  lemma {:induction false} PointsSum<R(!new), S(!new), C(!new)>(records: seq<R>, asked: Count<R, Row<S>, C>, w: Range, points: seq<C>, s: Sum<C>)
    requires Lawful(s) && Aligned(w) && OnGrid(records, asked, w) && w.start + |points| * w.bucket <= w.end
    requires forall i :: 0 <= i < |points| ==> points[i] == Total(records, Coarse(asked, ToBucket), w.start + i * w.bucket, s)
    ensures SumOf(points, s) == Total(records, Coarse(asked, Earlier(w.start + |points| * w.bucket)), (), s)
    decreases |points|
  {
    var edge := w.start + |points| * w.bucket;
    var before := Coarse(asked, Earlier(edge));
    if points == [] {
      assert !Occurs(records, before, ());
      TotalOfNone(records, before, (), s);
    } else {
      var n := |points| - 1;
      var last := w.start + n * w.bucket;
      assert edge == last + w.bucket;
      PointsSum(records, asked, w, points[..n], s);
      forall r | r in records && asked.key(r).Some?
        ensures var b := asked.key(r).value.bucket; b < edge <==> b < last || b == last
      {
        NextBucket(asked.key(r).value.bucket, w.start, n, w.bucket);
      }
      SplitTotal(records, before, (), Coarse(asked, Earlier(last)), (), Coarse(asked, ToBucket), last, s);
    }
  }

  lemma NextBucket(b: int, start: int, n: nat, size: nat)
    requires size > 0 && b % size == 0 && start % size == 0
    ensures var last := start + n * size; b < last + size <==> b < last || b == last
  {
    var last := start + n * size;
    Whole(b, size);
    Whole(start, size);
    assert (start / size + n) * size == last;
    Ladder(start / size + n, b / size, size);
    Ladder(b / size, start / size + n, size);
  }

  /**
   * The totals of a range and its trend.  The points cover the range bucket by
   * bucket, and they add up to the total.
   */
  method Snapshot<R(!new), S(!new, ==), C(!new)>(data: map<Row<S>, C>, w: Range, s: Sum<C>, ghost records: seq<R>, ghost asked: Count<R, Row<S>, C>)
      returns (total: C, trend: seq<C>)
    requires Lawful(s) && Aligned(w) && Shows(data, records, asked, s) && OnGrid(records, asked, w)
    ensures total == Total(records, Coarse(asked, ToAll), (), s)
    ensures w.start + |trend| * w.bucket == w.end
    ensures forall i :: 0 <= i < |trend| ==> trend[i] == Total(records, Coarse(asked, ToBucket), w.start + i * w.bucket, s)
    ensures SumOf(trend, s) == total
  {
    var byBucket := GroupBy(data, ToBucket, s, records, asked);
    var all := GroupBy(data, ToAll, s, records, asked);
    total := At(all, (), s);
    assert total == Total(records, Coarse(asked, ToAll), (), s);
    trend := SeriesPoints(w, byBucket, s);
    forall i | 0 <= i < |trend|
      ensures trend[i] == Total(records, Coarse(asked, ToBucket), w.start + i * w.bucket, s)
    {
      assert At(byBucket, w.start + i * w.bucket, s) == Total(records, Coarse(asked, ToBucket), w.start + i * w.bucket, s);
    }
    PointsSum(records, asked, w, trend, s);
    SameTotal(records, Coarse(asked, Earlier(w.end)), Coarse(asked, ToAll), (), (), s);
  }

  /** Sums rows under coarser keys: buckets, credentials, models, or everything. */
  method GroupBy<R(!new), K(!new, ==), L(!new, ==), C(!new)>(data: map<K, C>, g: K -> Option<L>, s: Sum<C>, ghost records: seq<R>, ghost how: Count<R, K, C>)
      returns (out: map<L, C>)
    requires Lawful(s) && Shows(data, records, how, s)
    ensures Shows(out, records, Coarse(how, g), s)
  {
    CoarseCoarsens(how, g);
    EmptyShows(Coarse(how, g), s);
    out := Fold(map[], data, g, s, [], records, how, Coarse(how, g));
    assert [] + records == records;
  }

  // -------------------------------------------------- counters of a time range

  const FLOW_BY_MINUTE: Count<Record, MinuteKey, Flow> := Count(SomeKeyOf, FlowOf)

  function FlowsOf(metrics: map<MinuteKey, Counters>): map<MinuteKey, Flow> {
    map k | k in metrics :: metrics[k].flow
  }

  function FlowPart(c: Counters): Flow {
    c.flow
  }

  lemma {:induction false} FlowTotal(records: seq<Record>, how: Count<Record, Row<Series>, Counters>, flows: Count<Record, Row<Series>, Flow>, k: Row<Series>)
    requires forall r {:trigger flows.key(r)} :: flows.key(r) == how.key(r)
    requires forall r {:trigger flows.value(r)} :: flows.value(r) == how.value(r).flow
    ensures Total(records, flows, k, FLOWS) == Total(records, how, k, COUNTERS).flow
  {
    if records != [] {
      FlowTotal(records[..|records| - 1], how, flows, k);
    }
  }

  /** The metric rows written to the database show the records as well. */
  lemma FlowsShow(metrics: map<MinuteKey, Counters>, records: seq<Record>)
    requires Shows(metrics, records, BY_MINUTE, COUNTERS)
    ensures Shows(FlowsOf(metrics), records, FLOW_BY_MINUTE, FLOWS)
  {
    forall k: MinuteKey
      ensures Total(records, FLOW_BY_MINUTE, k, FLOWS) == FlowPart(Total(records, BY_MINUTE, k, COUNTERS))
    {
      FlowTotal(records, BY_MINUTE, FLOW_BY_MINUTE, k);
    }
    MappedShows(metrics, FlowsOf(metrics), records, BY_MINUTE, FLOW_BY_MINUTE, FlowPart, COUNTERS, FLOWS);
  }

  function CatsOf(cats: map<Row<Category>, int>, k: Row<Series>): map<string, int> {
    map c | c in cats && c.bucket == k.bucket && c.series.channel == k.series :: c.series.name := cats[c]
  }

  /** Counters with their errors by category put together from the metric rows and the error rows. */
  ghost predicate Assembled(metrics: map<Row<Series>, Counters>, flows: map<Row<Series>, Flow>, cats: map<Row<Category>, int>) {
    && (forall k :: k in metrics <==> k in flows || exists c :: c in cats && Row(c.bucket, c.series.channel) == k)
    && (forall k :: k in metrics ==> metrics[k] == Counters(if k in flows then flows[k] else NO_FLOW, CatsOf(cats, k)))
  }

  /** Assembled counters are those of the records, if both kinds of rows show them. */
  lemma AssembledShows(metrics: map<Row<Series>, Counters>, flows: map<Row<Series>, Flow>, cats: map<Row<Category>, int>, records: seq<Record>,
                       how: Count<Record, Row<Series>, Counters>, flow: Count<Record, Row<Series>, Flow>, cat: Count<Record, Row<Category>, int>)
    requires Assembled(metrics, flows, cats) && ByCategory(cat, how)
    requires forall r {:trigger flow.key(r)} :: flow.key(r) == how.key(r)
    requires forall r {:trigger flow.value(r)} :: flow.value(r) == how.value(r).flow
    requires Shows(flows, records, flow, FLOWS) && Shows(cats, records, cat, COUNTS)
    ensures Shows(metrics, records, how, COUNTERS)
  {
    forall k: Row<Series>
      ensures k in metrics <==> Occurs(records, how, k)
      ensures At(metrics, k, COUNTERS) == Total(records, how, k, COUNTERS)
    {
      assert k in flows <==> Occurs(records, flow, k);
      assert At(flows, k, FLOWS) == Total(records, flow, k, FLOWS);
      FlowTotal(records, how, flow, k);
      RowsOccur(flows, cats, records, how, flow, cat, k);
      CatsTotal(cats, records, how, cat, k);
      if k !in metrics {
        TotalOfNone(records, how, k, COUNTERS);
      }
    }
  }

  lemma RowsOccur(flows: map<Row<Series>, Flow>, cats: map<Row<Category>, int>, records: seq<Record>,
                  how: Count<Record, Row<Series>, Counters>, flow: Count<Record, Row<Series>, Flow>, cat: Count<Record, Row<Category>, int>, k: Row<Series>)
    requires ByCategory(cat, how) && Shows(cats, records, cat, COUNTS) && Shows(flows, records, flow, FLOWS)
    requires forall r {:trigger flow.key(r)} :: flow.key(r) == how.key(r)
    ensures Occurs(records, how, k) <==> k in flows || exists c :: c in cats && Row(c.bucket, c.series.channel) == k
  {
    assert k in flows <==> Occurs(records, flow, k);
    if Occurs(records, how, k) {
      var r :| r in records && how.key(r) == Some(k);
      assert flow.key(r) == Some(k);
    }
    if Occurs(records, flow, k) {
      var r :| r in records && flow.key(r) == Some(k);
      assert how.key(r) == Some(k);
    }
    forall c | c in cats && Row(c.bucket, c.series.channel) == k
      ensures Occurs(records, how, k)
    {
      assert Occurs(records, cat, c);
      var r :| r in records && cat.key(r) == Some(c);
      assert how.key(r) == Some(k);
    }
  }

  lemma CatsTotal(cats: map<Row<Category>, int>, records: seq<Record>, how: Count<Record, Row<Series>, Counters>, cat: Count<Record, Row<Category>, int>, k: Row<Series>)
    requires ByCategory(cat, how) && Shows(cats, records, cat, COUNTS)
    ensures CatsOf(cats, k) == Total(records, how, k, COUNTERS).errByCat
  {
    var mine, theirs := CatsOf(cats, k), Total(records, how, k, COUNTERS).errByCat;
    forall name: string
      ensures name in mine <==> name in theirs
      ensures name in mine ==> mine[name] == theirs[name]
    {
      var c := Row(k.bucket, Category(k.series, name));
      CategoriesAgree(records, c, how, cat);
      assert c in cats <==> Occurs(records, cat, c);
      assert At(cats, c, COUNTS) == Total(records, cat, c, COUNTS);
    }
  }

  /** Reads the metric rows and error rows of a range into counters. */
  method LoadCounters(flows: map<Row<Series>, Flow>, errs: map<ErrorKey, int>, w: Range, ghost records: seq<Record>) returns (metrics: map<Row<Series>, Counters>)
    requires Shows(flows, records, Asked(FLOW_BY_MINUTE, w, Every), FLOWS)
    requires Shows(errs, records, Asked(BY_ERROR, w, Every), COUNTS)
    ensures Shows(metrics, records, Asked(BY_MINUTE, w, Every), COUNTERS)
  {
    CountsLawful();
    ghost var cat := Coarse(Asked(BY_ERROR, w, Every), WithoutStatus);
    var cats := GroupBy(errs, WithoutStatus, COUNTS, records, Asked(BY_ERROR, w, Every));
    metrics := Assemble(flows, cats);
    AskedCategories(w);
    AssembledShows(metrics, flows, cats, records, Asked(BY_MINUTE, w, Every), Asked(FLOW_BY_MINUTE, w, Every), cat);
  }

  function Assemble(flows: map<Row<Series>, Flow>, cats: map<Row<Category>, int>): (metrics: map<Row<Series>, Counters>)
    ensures Assembled(metrics, flows, cats)
  {
    map k | k in flows.Keys + set c | c in cats :: Row(c.bucket, c.series.channel) ::
      Counters(if k in flows then flows[k] else NO_FLOW, CatsOf(cats, k))
  }

  lemma AskedCategories(w: Range)
    ensures ByCategory(Coarse(Asked(BY_ERROR, w, Every), WithoutStatus), Asked(BY_MINUTE, w, Every))
    ensures forall r {:trigger Asked(FLOW_BY_MINUTE, w, Every).key(r)} ::
              Asked(FLOW_BY_MINUTE, w, Every).key(r) == Asked(BY_MINUTE, w, Every).key(r)
    ensures forall r {:trigger Asked(FLOW_BY_MINUTE, w, Every).value(r)} ::
              Asked(FLOW_BY_MINUTE, w, Every).value(r) == Asked(BY_MINUTE, w, Every).value(r).flow
  {
    forall r: Record
      ensures var cat, how := Coarse(Asked(BY_ERROR, w, Every), WithoutStatus), Asked(BY_MINUTE, w, Every);
              cat.key(r) == match how.key(r)
                            case Some(k) => (if r.failed then Some(Row(k.bucket, Category(k.series, r.category))) else None)
                            case None => None
      ensures Coarse(Asked(BY_ERROR, w, Every), WithoutStatus).value(r) == 1 && Asked(BY_MINUTE, w, Every).value(r) == CountersOf(r)
    {
      assert BY_ERROR.value(r) == One(r) == 1;
      AskedKey(BY_MINUTE, w, r);
      AskedKey(BY_ERROR, w, r);
      assert BY_MINUTE.key(r) == Some(KeyOf(r));
    }
  }
}

/**
 * The channel monitor's in-memory buffer.  It shows, in the sense of `Tally`, the
 * records added to it: per minute and channel the summed counters, and per minute,
 * channel, error category and status the number of failures.
 */
module ChannelMemory {
  import opened Histogram
  import opened Tally
  import Text
  import opened Wrappers

  datatype Series = Series(provider: string, auth: string, model: string)

  /** A row of a table: the bucket it starts at and what it counts there. */
  datatype Row<S> = Row(bucket: int, series: S)

  type MinuteKey = Row<Series>

  datatype ErrorSeries = ErrorSeries(channel: Series, category: string, status: int)

  type ErrorKey = Row<ErrorSeries>

  /**
   * One usage record.  `at` is the Unix time it was requested at, if known; the
   * category is the one its failure is classified under; durations are in
   * nanoseconds.
   */
  datatype Record = Record(
    at: Option<int>, provider: string, auth: string, model: string,
    failed: bool, status: int, category: string,
    input: int, output: int, cacheCreate: int, cacheRead: int, cached: int,
    ttft: int, latency: int)

  /** All that is summed per minute and channel but the errors by category. */
  datatype Flow = Flow(
    success: int, failed: int, input: int, output: int, cacheCreate: int, cacheRead: int,
    ttftSum: int, ttftCount: int, durSum: int, durCount: int, ttftHist: Hist, durHist: Hist)

  datatype Counters = Counters(flow: Flow, errByCat: map<string, int>)

  const NO_HIST: Hist := [0, 0, 0, 0, 0, 0, 0, 0, 0, 0, 0, 0, 0, 0, 0, 0, 0]
  const NO_FLOW: Flow := Flow(0, 0, 0, 0, 0, 0, 0, 0, 0, 0, NO_HIST, NO_HIST)

  function PlusHist(a: Hist, b: Hist): Hist {
    seq(17, i requires 0 <= i < 17 => a[i] + b[i])
  }

  function PlusFlow(a: Flow, b: Flow): Flow {
    Flow(a.success + b.success, a.failed + b.failed, a.input + b.input, a.output + b.output,
         a.cacheCreate + b.cacheCreate, a.cacheRead + b.cacheRead, a.ttftSum + b.ttftSum, a.ttftCount + b.ttftCount,
         a.durSum + b.durSum, a.durCount + b.durCount, PlusHist(a.ttftHist, b.ttftHist), PlusHist(a.durHist, b.durHist))
  }

  function PlusCats(a: map<string, int>, b: map<string, int>): map<string, int> {
    map k | k in a.Keys + b.Keys :: (if k in a then a[k] else 0) + (if k in b then b[k] else 0)
  }

  function PlusCounters(a: Counters, b: Counters): Counters {
    Counters(PlusFlow(a.flow, b.flow), PlusCats(a.errByCat, b.errByCat))
  }

  function PlusInt(a: int, b: int): int {
    a + b
  }

  const FLOWS: Sum<Flow> := Sum(NO_FLOW, PlusFlow)
  const COUNTERS: Sum<Counters> := Sum(Counters(NO_FLOW, map[]), PlusCounters)
  const COUNTS: Sum<int> := Sum(0, PlusInt)

  lemma FlowsAdd(a: Flow, b: Flow, c: Flow)
    ensures PlusFlow(a, b) == PlusFlow(b, a)
    ensures PlusFlow(PlusFlow(a, b), c) == PlusFlow(a, PlusFlow(b, c))
    ensures PlusFlow(a, NO_FLOW) == a
  {
    assert PlusHist(a.ttftHist, NO_HIST) == a.ttftHist && PlusHist(a.durHist, NO_HIST) == a.durHist;
  }

  lemma CatsCommute(a: map<string, int>, b: map<string, int>)
    ensures PlusCats(a, b) == PlusCats(b, a)
  {
  }

  lemma CatsAssociate(a: map<string, int>, b: map<string, int>, c: map<string, int>)
    ensures PlusCats(PlusCats(a, b), c) == PlusCats(a, PlusCats(b, c))
  {
    assert PlusCats(PlusCats(a, b), c).Keys == PlusCats(a, PlusCats(b, c)).Keys;
  }

  lemma CatsZero(a: map<string, int>)
    ensures PlusCats(a, map[]) == a
  {
  }

  lemma FlowsLawful()
    ensures Lawful(FLOWS)
  {
    forall a: Flow, b: Flow, c: Flow {:trigger PlusFlow(PlusFlow(a, b), c)}
      ensures PlusFlow(PlusFlow(a, b), c) == PlusFlow(a, PlusFlow(b, c))
    {
      FlowsAdd(a, b, c);
    }
    forall a: Flow, b: Flow
      ensures PlusFlow(a, b) == PlusFlow(b, a)
    {
      FlowsAdd(a, b, b);
    }
    forall a: Flow
      ensures PlusFlow(a, NO_FLOW) == a
    {
      FlowsAdd(a, a, a);
    }
  }

  lemma CountersLawful()
    ensures Lawful(COUNTERS)
  {
    forall a: Counters, b: Counters, c: Counters {:trigger PlusCounters(PlusCounters(a, b), c)}
      ensures PlusCounters(PlusCounters(a, b), c) == PlusCounters(a, PlusCounters(b, c))
    {
      FlowsAdd(a.flow, b.flow, c.flow);
      CatsAssociate(a.errByCat, b.errByCat, c.errByCat);
    }
    forall a: Counters, b: Counters
      ensures PlusCounters(a, b) == PlusCounters(b, a)
    {
      FlowsAdd(a.flow, b.flow, b.flow);
      CatsCommute(a.errByCat, b.errByCat);
    }
    forall a: Counters
      ensures PlusCounters(a, COUNTERS.zero) == a
    {
      FlowsAdd(a.flow, a.flow, a.flow);
      CatsZero(a.errByCat);
    }
  }

  lemma CountsLawful()
    ensures Lawful(COUNTS)
  {
  }

  // ---------------------------------------------------------- what a record counts

  /** A Unix time cut to its minute, truncating towards zero. */
  function MinuteOf(at: int): int {
    if at >= 0 then at / 60 * 60 else -(-at / 60 * 60)
  }

  function OrUnknown(name: string): string {
    var trimmed := Text.TrimSpace(name);
    if trimmed == "" then "unknown" else trimmed
  }

  function SeriesOf(r: Record): Series {
    Series(OrUnknown(r.provider), Text.TrimSpace(r.auth), OrUnknown(r.model))
  }

  function KeyOf(r: Record): MinuteKey {
    Row(MinuteOf(if r.at.Some? then r.at.value else 0), SeriesOf(r))
  }

  function ErrorOf(r: Record): Option<ErrorKey> {
    if r.failed then Some(Row(KeyOf(r).bucket, ErrorSeries(SeriesOf(r), r.category, r.status))) else None
  }

  function Milliseconds(d: nat): nat {
    d / 1_000_000
  }

  /** One latency, if there is one, as a histogram. */
  function OneLatency(d: int): Hist {
    if d > 0 then NO_HIST[IndexFrom(Milliseconds(d), 0) := 1] else NO_HIST
  }

  function FlowOf(r: Record): Flow {
    Flow(if r.failed then 0 else 1, if r.failed then 1 else 0, r.input, r.output, r.cacheCreate,
         if r.cacheRead == 0 then r.cached else r.cacheRead,
         if r.ttft > 0 then Milliseconds(r.ttft) else 0, if r.ttft > 0 then 1 else 0,
         if r.latency > 0 then Milliseconds(r.latency) else 0, if r.latency > 0 then 1 else 0,
         OneLatency(r.ttft), OneLatency(r.latency))
  }

  function CountersOf(r: Record): Counters {
    Counters(FlowOf(r), if r.failed then map[r.category := 1] else map[])
  }

  function SomeKeyOf(r: Record): Option<MinuteKey> {
    Some(KeyOf(r))
  }

  function One(r: Record): int {
    1
  }

  const BY_MINUTE: Count<Record, MinuteKey, Counters> := Count(SomeKeyOf, CountersOf)
  const BY_ERROR: Count<Record, ErrorKey, int> := Count(ErrorOf, One)

  /** A record with the time it counts under. */
  function Stamped(r: Record, now: int): Record {
    if r.at.None? then r.(at := Some(now)) else r
  }

  // ------------------------------------------------------------- the buffer

  lemma PlusOne(h: Hist, i: nat)
    requires i < 17
    ensures PlusHist(h, NO_HIST[i := 1]) == h[i := h[i] + 1]
    ensures PlusHist(h, NO_HIST) == h
  {
  }

  /** Counts a latency into a histogram. */
  method CountLatency(h: Hist, d: int) returns (out: Hist, sum: int, count: int)
    ensures out == PlusHist(h, OneLatency(d))
    ensures sum == (if d > 0 then Milliseconds(d) else 0) && count == if d > 0 then 1 else 0
  {
    out, sum, count := h, 0, 0;
    PlusOne(h, 0);
    if d > 0 {
      var ms := d / 1_000_000;
      var i := HistogramIndex(ms);
      PlusOne(h, i);
      out, sum, count := h[i := h[i] + 1], ms, 1;
    }
  }

  method CountFlow(was: Flow, r: Record) returns (flow: Flow)
    ensures flow == PlusFlow(was, FlowOf(r))
  {
    flow := was;
    if r.failed {
      flow := flow.(failed := flow.failed + 1);
    } else {
      flow := flow.(success := flow.success + 1);
    }
    flow := flow.(input := flow.input + r.input, output := flow.output + r.output, cacheCreate := flow.cacheCreate + r.cacheCreate);
    var cacheRead := r.cacheRead;
    if cacheRead == 0 {
      cacheRead := r.cached;
    }
    flow := flow.(cacheRead := flow.cacheRead + cacheRead);
    var ttftHist, ttftSum, ttftCount := CountLatency(flow.ttftHist, r.ttft);
    flow := flow.(ttftHist := ttftHist, ttftSum := flow.ttftSum + ttftSum, ttftCount := flow.ttftCount + ttftCount);
    var durHist, durSum, durCount := CountLatency(flow.durHist, r.latency);
    flow := flow.(durHist := durHist, durSum := flow.durSum + durSum, durCount := flow.durCount + durCount);
  }

  method CountRecord(c: Counters, r: Record) returns (out: Counters)
    ensures out == COUNTERS.plus(c, CountersOf(r))
  {
    var cats := c.errByCat;
    if r.failed {
      cats := cats[r.category := (if r.category in cats then cats[r.category] else 0) + 1];
    }
    assert cats == PlusCats(c.errByCat, CountersOf(r).errByCat);
    var flow := CountFlow(c.flow, r);
    out := Counters(flow, cats);
  }

  lemma MetricsCounted(metrics: map<MinuteKey, Counters>, records: seq<Record>, r: Record, row: Counters)
    requires Shows(metrics, records, BY_MINUTE, COUNTERS) && row == COUNTERS.plus(At(metrics, KeyOf(r), COUNTERS), CountersOf(r))
    ensures Shows(metrics[KeyOf(r) := row], records + [r], BY_MINUTE, COUNTERS)
  {
    RowShows(metrics, records, r, KeyOf(r), row, BY_MINUTE, COUNTERS);
  }

  // ---------------------------------------------- totals over all the records

  /** One row for everything. */
  function AllOf(k: MinuteKey): Option<()> {
    Some(())
  }

  function AnyRecord(r: Record): Option<()> {
    Some(())
  }

  const ONES_BY_MINUTE: Count<Record, MinuteKey, int> := Count(SomeKeyOf, One)
  const ONES: Count<Record, (), int> := Count(AnyRecord, One)

  function Requests(c: Counters): int {
    c.flow.success + c.flow.failed
  }

  function RequestsOf(metrics: map<MinuteKey, Counters>): map<MinuteKey, int> {
    map k | k in metrics :: Requests(metrics[k])
  }

  lemma {:induction false} RequestsTotal(records: seq<Record>, k: MinuteKey)
    ensures Requests(Total(records, BY_MINUTE, k, COUNTERS)) == Total(records, ONES_BY_MINUTE, k, COUNTS)
  {
    if records != [] {
      RequestsTotal(records[..|records| - 1], k);
    }
  }

  lemma RequestsShow(metrics: map<MinuteKey, Counters>, records: seq<Record>)
    requires Shows(metrics, records, BY_MINUTE, COUNTERS)
    ensures Shows(RequestsOf(metrics), records, ONES_BY_MINUTE, COUNTS)
  {
    forall k: MinuteKey
      ensures Total(records, ONES_BY_MINUTE, k, COUNTS) == Requests(Total(records, BY_MINUTE, k, COUNTERS))
    {
      RequestsTotal(records, k);
    }
    MappedShows(metrics, RequestsOf(metrics), records, BY_MINUTE, ONES_BY_MINUTE, Requests, COUNTERS, COUNTS);
  }

  lemma {:induction false} OnesCount(records: seq<Record>)
    ensures Total(records, ONES, (), COUNTS) == |records|
  {
    if records != [] {
      OnesCount(records[..|records| - 1]);
    }
  }

  // ----------------------------------------------------- errors by category

  datatype Category = Category(channel: Series, name: string)

  /** The row an error row counts under when its status is dropped. */
  function WithoutStatus(k: ErrorKey): Option<Row<Category>> {
    Some(Row(k.bucket, Category(k.series.channel, k.series.category)))
  }

  /** Failures counted by category under the same rows as `how` counts records. */
  ghost predicate ByCategory(cat: Count<Record, Row<Category>, int>, how: Count<Record, Row<Series>, Counters>) {
    forall r {:trigger cat.key(r)} {:trigger how.key(r)} ::
      && how.value(r) == CountersOf(r) && cat.value(r) == 1
      && cat.key(r) == match how.key(r)
                       case Some(k) => (if r.failed then Some(Row(k.bucket, Category(k.series, r.category))) else None)
                       case None => None
  }

  ghost predicate CategoryAgrees(cats: map<string, int>, records: seq<Record>, k: Row<Category>, cat: Count<Record, Row<Category>, int>) {
    && (k.series.name in cats <==> Occurs(records, cat, k))
    && At(cats, k.series.name, COUNTS) == Total(records, cat, k, COUNTS)
  }

  /** The counts by category that ride with the counters are those of the separate error rows. */
  lemma {:induction false} CategoriesAgree(records: seq<Record>, k: Row<Category>, how: Count<Record, Row<Series>, Counters>, cat: Count<Record, Row<Category>, int>)
    requires ByCategory(cat, how)
    ensures CategoryAgrees(Total(records, how, Row(k.bucket, k.series.channel), COUNTERS).errByCat, records, k, cat)
  {
    if records != [] {
      var rest, r := records[..|records| - 1], records[|records| - 1];
      CategoriesAgree(rest, k, how, cat);
      assert records == rest + [r];
      OccursConcat(rest, [r], cat, k);
      assert Occurs([r], cat, k) <==> cat.key(r) == Some(k) by {
        assert r in [r];
      }
    }
  }

  class Memory {
    var metrics: map<MinuteKey, Counters>
    var errors: map<ErrorKey, int>

    /** The buffer holds the counts of these records and of no others. */
    ghost predicate Holds(records: seq<Record>)
      reads this
    {
      Shows(metrics, records, BY_MINUTE, COUNTERS) && Shows(errors, records, BY_ERROR, COUNTS)
    }

    constructor ()
      ensures Holds([]) && metrics == map[] && errors == map[]
    {
      metrics, errors := map[], map[];
    }

    function Size(): nat
      reads this
    {
      |metrics| + |errors|
    }

    predicate Empty()
      reads this
    {
      metrics == map[] && errors == map[]
    }

    method Add(now: int, record: Record, ghost records: seq<Record>)
      requires Holds(records)
      modifies this
      ensures Holds(records + [Stamped(record, now)])
    {
      var r := Stamped(record, now);
      var key := KeyOf(r);
      var counters := CountRecord(if key in metrics then metrics[key] else COUNTERS.zero, r);
      MetricsCounted(metrics, records, r, counters);
      metrics := metrics[key := counters];
      if r.failed {
        var errKey := Row(key.bucket, ErrorSeries(key.series, r.category, r.status));
        var count := (if errKey in errors then errors[errKey] else 0) + 1;
        RowShows(errors, records, r, errKey, count, BY_ERROR, COUNTS);
        errors := errors[errKey := count];
      } else {
        SkipShows(errors, records, r, BY_ERROR, COUNTS);
      }
    }

    /** The number of records held. */
    method RequestCount(ghost records: seq<Record>) returns (count: int)
      requires Holds(records)
      ensures count == |records|
    {
      RequestsShow(metrics, records);
      CountsLawful();
      var totals := Fold(map[], RequestsOf(metrics), AllOf, COUNTS, [], records, ONES_BY_MINUTE, ONES);
      count := At(totals, (), COUNTS);
      assert [] + records == records;
      assert count == Total(records, ONES, (), COUNTS);
      OnesCount(records);
    }

    method Clone() returns (copy: Memory)
      ensures fresh(copy) && copy.metrics == metrics && copy.errors == errors
    {
      copy := new Memory();
      copy.metrics, copy.errors := metrics, errors;
    }

    /** Takes over what another buffer holds. */
    method MergeFrom(other: Memory, ghost mine: seq<Record>, ghost others: seq<Record>)
      requires Holds(mine) && other.Holds(others)
      modifies this
      ensures Holds(mine + others)
    {
      var mergedMetrics := Merge(metrics, other.metrics, COUNTERS);
      var mergedErrors := Merge(errors, other.errors, COUNTS);
      assert Shows(mergedMetrics, mine + others, BY_MINUTE, COUNTERS) by {
        CountersLawful();
        MergeShows(mergedMetrics, metrics, other.metrics, mine, others, BY_MINUTE, COUNTERS);
      }
      assert Shows(mergedErrors, mine + others, BY_ERROR, COUNTS) by {
        CountsLawful();
        MergeShows(mergedErrors, errors, other.errors, mine, others, BY_ERROR, COUNTS);
      }
      metrics, errors := mergedMetrics, mergedErrors;
    }
  }
}

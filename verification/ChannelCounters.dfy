/**
 * What the counters of records are, told from the records' own fields: sums over the
 * records, each field by itself, under any grouping.
 */
module ChannelCounters {
  import opened ChannelMemory
  import opened Histogram
  import opened Tally
  import opened Wrappers

  type Chosen = Record -> bool

  /** The sum of a field over the records chosen. */
  function SumIf(records: seq<Record>, chosen: Chosen, field: Record -> int): int {
    if records == [] then 0
    else
      var r := records[|records| - 1];
      SumIf(records[..|records| - 1], chosen, field) + if chosen(r) then field(r) else 0
  }

  function CountIf(records: seq<Record>, chosen: Chosen): int {
    SumIf(records, chosen, (r: Record) => 1)
  }

  /** A duration in whole milliseconds, if there is one. */
  function Millis(d: int): int {
    if d > 0 then d / 1_000_000 else 0
  }

  /** A duration that there is falls into bucket `i`: it exceeds the bound below and not its own. */
  predicate InBucket(d: int, i: nat)
    requires i < BUCKETS
  {
    d > 0 && (i == 0 || BOUNDS[i - 1] < d / 1_000_000) && (i == BUCKETS - 1 || d / 1_000_000 <= BOUNDS[i])
  }

  /** The sum of the values of a table. */
  ghost function ValuesOf(table: map<string, int>): int {
    if table == map[] then 0
    else
      var k :| k in table;
      table[k] + ValuesOf(table - {k})
  }

  /** The counters are the sums of the fields of the records chosen. */
  ghost predicate Sums(c: Counters, records: seq<Record>, chosen: Chosen) {
    && FlowSums(c.flow, records, chosen) && BucketsSum(c, records, chosen)
    && Size(c.flow.ttftHist) == c.flow.ttftCount && Size(c.flow.durHist) == c.flow.durCount
    && CategoriesSum(c, records, chosen) && ValuesOf(c.errByCat) == c.flow.failed
  }

  ghost predicate FlowSums(f: Flow, records: seq<Record>, chosen: Chosen) {
    && f.failed == CountIf(records, (r: Record) => chosen(r) && r.failed)
    && f.success == CountIf(records, (r: Record) => chosen(r) && !r.failed)
    && f.input == SumIf(records, chosen, (r: Record) => r.input)
    && f.output == SumIf(records, chosen, (r: Record) => r.output)
    && f.cacheCreate == SumIf(records, chosen, (r: Record) => r.cacheCreate)
    && f.cacheRead == SumIf(records, chosen, (r: Record) => if r.cacheRead != 0 then r.cacheRead else r.cached)
    && f.ttftSum == SumIf(records, chosen, (r: Record) => Millis(r.ttft))
    && f.ttftCount == CountIf(records, (r: Record) => chosen(r) && r.ttft > 0)
    && f.durSum == SumIf(records, chosen, (r: Record) => Millis(r.latency))
    && f.durCount == CountIf(records, (r: Record) => chosen(r) && r.latency > 0)
  }

  ghost predicate BucketsSum(c: Counters, records: seq<Record>, chosen: Chosen) {
    forall i: nat | i < BUCKETS ::
      && c.flow.ttftHist[i] == CountIf(records, (r: Record) => chosen(r) && InBucket(r.ttft, i))
      && c.flow.durHist[i] == CountIf(records, (r: Record) => chosen(r) && InBucket(r.latency, i))
  }

  ghost predicate CategoriesSum(c: Counters, records: seq<Record>, chosen: Chosen) {
    forall name: string ::
      (if name in c.errByCat then c.errByCat[name] else 0) == CountIf(records, (r: Record) => chosen(r) && r.failed && r.category == name)
  }

  // ------------------------------------------------------------------- proofs

  lemma SumSnoc(records: seq<Record>, r: Record)
    ensures forall chosen: Chosen, field: Record -> int {:trigger SumIf(records + [r], chosen, field)} ::
              SumIf(records + [r], chosen, field) == SumIf(records, chosen, field) + if chosen(r) then field(r) else 0
  {
    assert (records + [r])[..|records|] == records;
  }

  lemma OneBucket(d: int, i: nat)
    requires i < BUCKETS
    ensures OneLatency(d)[i] == if InBucket(d, i) then 1 else 0
  {
    BoundsAscend(OneLatency(d));
    if d > 0 {
      var index := IndexFrom(d / 1_000_000, 0);
      assert InBucket(d, index);
    }
  }

  lemma {:induction false} CumulativePlus(a: Hist, b: Hist, n: nat)
    requires n <= 17
    ensures Cumulative(PlusHist(a, b), n) == Cumulative(a, n) + Cumulative(b, n)
  {
    if n > 0 {
      CumulativePlus(a, b, n - 1);
    }
  }

  lemma {:induction false} CumulativeOne(h: Hist, at: nat, n: nat)
    requires at < 17 && n <= 17 && h == NO_HIST[at := 1]
    ensures Cumulative(h, n) == if at < n then 1 else 0
  {
    if n > 0 {
      CumulativeOne(h, at, n - 1);
    }
  }

  lemma {:induction false} CumulativeNone(n: nat)
    requires n <= 17
    ensures Cumulative(NO_HIST, n) == 0
  {
    if n > 0 {
      CumulativeNone(n - 1);
    }
  }

  lemma SizePlus(h: Hist, d: int)
    ensures Size(PlusHist(h, OneLatency(d))) == Size(h) + if d > 0 then 1 else 0
  {
    CumulativePlus(h, OneLatency(d), 17);
    if d > 0 {
      CumulativeOne(OneLatency(d), IndexFrom(Milliseconds(d), 0), 17);
    } else {
      CumulativeNone(17);
    }
  }

  lemma {:induction false} ValuesWithout(table: map<string, int>, k: string)
    requires k in table
    ensures ValuesOf(table) == table[k] + ValuesOf(table - {k})
    decreases |table|
  {
    var j :| j in table && ValuesOf(table) == table[j] + ValuesOf(table - {j});
    if j != k {
      ValuesWithout(table - {j}, k);
      ValuesWithout(table - {k}, j);
      assert table - {j} - {k} == table - {k} - {j};
    }
  }

  lemma ValuesPlusOne(table: map<string, int>, name: string)
    ensures ValuesOf(PlusCats(table, map[name := 1])) == ValuesOf(table) + 1
  {
    var more := PlusCats(table, map[name := 1]);
    ValuesWithout(more, name);
    assert more - {name} == table - {name};
    if name in table {
      ValuesWithout(table, name);
    } else {
      assert table - {name} == table;
    }
  }

  /** One more record. */
  function Counted(c: Counters, r: Record, counts: bool): Counters {
    if counts then COUNTERS.plus(c, CountersOf(r)) else c
  }

  lemma FieldsSnoc(c: Counters, records: seq<Record>, r: Record, chosen: Chosen)
    requires Sums(c, records, chosen)
    ensures Sums(Counted(c, r, chosen(r)), records + [r], chosen)
  {
    FlowSnoc(c.flow, records, r, chosen);
    BucketsSnoc(c, records, r, chosen);
    CategoriesSnoc(c, records, r, chosen);
    if chosen(r) {
      SizePlus(c.flow.ttftHist, r.ttft);
      SizePlus(c.flow.durHist, r.latency);
      FailedSnoc(c.errByCat, r);
    }
  }

  lemma FlowSnoc(f: Flow, records: seq<Record>, r: Record, chosen: Chosen)
    requires FlowSums(f, records, chosen)
    ensures FlowSums(if chosen(r) then PlusFlow(f, FlowOf(r)) else f, records + [r], chosen)
  {
    SumSnoc(records, r);
  }

  lemma FailedSnoc(cats: map<string, int>, r: Record)
    ensures ValuesOf(PlusCats(cats, CountersOf(r).errByCat)) == ValuesOf(cats) + if r.failed then 1 else 0
  {
    if r.failed {
      ValuesPlusOne(cats, r.category);
    } else {
      CatsZero(cats);
    }
  }

  lemma BucketsSnoc(c: Counters, records: seq<Record>, r: Record, chosen: Chosen)
    requires BucketsSum(c, records, chosen)
    ensures BucketsSum(Counted(c, r, chosen(r)), records + [r], chosen)
  {
    SumSnoc(records, r);
    forall i: nat | i < BUCKETS
      ensures OneLatency(r.ttft)[i] == (if InBucket(r.ttft, i) then 1 else 0) && OneLatency(r.latency)[i] == if InBucket(r.latency, i) then 1 else 0
    {
      OneBucket(r.ttft, i);
      OneBucket(r.latency, i);
    }
  }

  lemma CategoriesSnoc(c: Counters, records: seq<Record>, r: Record, chosen: Chosen)
    requires CategoriesSum(c, records, chosen)
    ensures CategoriesSum(Counted(c, r, chosen(r)), records + [r], chosen)
  {
    SumSnoc(records, r);
  }

  // ------------------------------------------------------------- main results

  /**
   * Whatever records are grouped by, the counters of a group are the sums of the fields
   * of its records: failures and successes, tokens, cache reads with their substitute,
   * latencies with their counts and buckets, and failures by category.
   */
  lemma {:induction false} TotalSums<K>(records: seq<Record>, how: Count<Record, K, Counters>, k: K, chosen: Chosen)
    requires forall r: Record {:trigger how.value(r)} :: how.value(r) == BY_MINUTE.value(r)
    requires forall r: Record {:trigger how.key(r)} {:trigger chosen(r)} :: r in records ==> (chosen(r) <==> how.key(r) == Some(k))
    ensures Sums(Total(records, how, k, COUNTERS), records, chosen)
  {
    if records == [] {
      CumulativeNone(17);
    } else {
      var rest, r := records[..|records| - 1], records[|records| - 1];
      assert records == rest + [r] && r in records && forall q :: q in rest ==> q in records;
      TotalSums(rest, how, k, chosen);
      FieldsSnoc(Total(rest, how, k, COUNTERS), rest, r, chosen);
      assert how.value(r) == CountersOf(r);
      assert Total(records, how, k, COUNTERS) == Counted(Total(rest, how, k, COUNTERS), r, chosen(r));
    }
  }
}

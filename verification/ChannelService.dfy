/**
 * The channel monitor's service: records are buffered, flushed to the database in
 * batches, and merged back when a flush fails.  Other steps may come between the
 * start of a flush and its end.
 */
module ChannelService {
  import opened ChannelCounters
  import opened ChannelMemory
  import opened ChannelQuery
  import opened ChannelStore
  import opened ChannelTotals
  import opened Tally
  import opened Wrappers

  /** The buffer is bounded, in rows, while the database is unavailable. */
  const MAX_PENDING_KEYS: nat := 8192

  function Itself(s: Series): Series {
    s
  }

  function ChannelOf(s: ErrorSeries): Series {
    s.channel
  }

  /** Every record is a request. */
  function Weight(f: Flow): int {
    f.success + f.failed
  }

  const METRICS: Setting<Record, Series, Series, Flow> := Setting(Itself, FLOW_BY_MINUTE, FLOWS, Weight)
  const ERRORS: Setting<Record, ErrorSeries, Series, int> := Setting(ChannelOf, BY_ERROR, COUNTS, Plain)

  lemma MetricsWeigh()
    ensures Positive(FLOW_BY_MINUTE, FLOWS, Weight)
  {
    forall a: Flow, b: Flow
      ensures Adds(FLOWS, Weight, a, b)
    {
    }
    forall r: Record
      ensures Weighs(FLOW_BY_MINUTE, Weight, r)
    {
      assert FLOW_BY_MINUTE.value(r) == FlowOf(r);
    }
  }

  lemma MetricsSound()
    ensures Sound(METRICS)
  {
    FlowsLawful();
    MetricsWeigh();
  }

  lemma ErrorsSound()
    ensures Sound(ERRORS)
  {
    CountsLawful();
    forall a: int, b: int
      ensures Adds(COUNTS, Plain, a, b)
    {
    }
    forall r: Record
      ensures Weighs(BY_ERROR, Plain, r)
    {
      assert BY_ERROR.value(r) == One(r);
    }
  }

  // -------------------------------------------------------------- conservation

  /** Where the accepted records are: stored, in flight, pending, or dropped and counted. */
  datatype Books = Books(accepted: seq<Record>, stored: seq<Record>, flying: seq<Record>, pending: seq<Record>, lost: seq<Record>)

  const EMPTY: Books := Books([], [], [], [], [])

  datatype Step = Added(r: Record, kept: bool) | Begun | Committed | Failed(kept: bool)

  function Next(b: Books, step: Step): Books {
    match step
    case Added(r, kept) =>
      if kept then b.(accepted := b.accepted + [r], pending := b.pending + [r]) else b.(accepted := b.accepted + [r], lost := b.lost + [r])
    case Begun => b.(flying := b.flying + b.pending, pending := [])
    case Committed => b.(stored := b.stored + b.flying, flying := [])
    case Failed(kept) =>
      if kept then b.(pending := b.pending + b.flying, flying := []) else b.(lost := b.lost + b.flying, flying := [])
  }

  function Run(b: Books, steps: seq<Step>): Books {
    if steps == [] then b else Next(Run(b, steps[..|steps| - 1]), steps[|steps| - 1])
  }

  ghost predicate Balanced(b: Books) {
    multiset(b.accepted) == multiset(b.stored) + multiset(b.flying) + multiset(b.pending) + multiset(b.lost)
  }

  /** However flushes succeed and fail, no record goes missing and none is doubled. */
  lemma {:induction false} RunBalanced(steps: seq<Step>)
    ensures Balanced(Run(EMPTY, steps))
  {
    if steps != [] {
      RunBalanced(steps[..|steps| - 1]);
      NextBalanced(Run(EMPTY, steps[..|steps| - 1]), steps[|steps| - 1]);
    }
  }

  lemma NextBalanced(b: Books, step: Step)
    requires Balanced(b)
    ensures Balanced(Next(b, step))
  {
  }

  /** Hence per minute and channel the counters add up to those of the accepted records. */
  lemma CountersConserved(steps: seq<Step>, b: Books, k: MinuteKey)
    requires b == Run(EMPTY, steps)
    ensures Total(b.accepted, BY_MINUTE, k, COUNTERS)
         == COUNTERS.plus(COUNTERS.plus(Total(b.stored, BY_MINUTE, k, COUNTERS), Total(b.flying, BY_MINUTE, k, COUNTERS)),
                          COUNTERS.plus(Total(b.pending, BY_MINUTE, k, COUNTERS), Total(b.lost, BY_MINUTE, k, COUNTERS)))
  {
    RunBalanced(steps);
    CountersLawful();
    FourParts(b.accepted, b.stored, b.flying, b.pending, b.lost, BY_MINUTE, k, COUNTERS);
  }

  lemma FourParts<R(!new), K, C(!new)>(all: seq<R>, a: seq<R>, b: seq<R>, c: seq<R>, d: seq<R>, how: Count<R, K, C>, k: K, s: Sum<C>)
    requires Lawful(s) && multiset(all) == multiset(a) + multiset(b) + multiset(c) + multiset(d)
    ensures Total(all, how, k, s)
         == s.plus(s.plus(Total(a, how, k, s), Total(b, how, k, s)), s.plus(Total(c, how, k, s), Total(d, how, k, s)))
  {
    assert multiset((a + b) + (c + d)) == multiset(all);
    SamplesMoved(all, (a + b) + (c + d), how, k, s);
    TotalConcat(a + b, c + d, how, k, s);
    TotalConcat(a, b, how, k, s);
    TotalConcat(c, d, how, k, s);
  }

  // ---------------------------------------------------------------- one batch

  ghost predicate Dated(records: seq<Record>) {
    forall r :: r in records ==> KeyOf(r).bucket >= 0
  }

  function Affected(metrics: map<MinuteKey, Counters>, errors: map<ErrorKey, int>): set<Row<Series>> {
    metrics.Keys + set k | k in errors :: Row(k.bucket, k.series.channel)
  }

  lemma BatchCovered(metrics: map<MinuteKey, Counters>, errors: map<ErrorKey, int>, batch: seq<Record>)
    requires Shows(metrics, batch, BY_MINUTE, COUNTERS) && Shows(errors, batch, BY_ERROR, COUNTS) && Dated(batch)
    ensures Covers(Affected(metrics, errors), batch, METRICS) && Covers(Affected(metrics, errors), batch, ERRORS)
    ensures forall a :: a in Affected(metrics, errors) ==> a.bucket >= 0
  {
    forall r | r in batch
      ensures KeyOf(r) in Affected(metrics, errors)
    {
      assert BY_MINUTE.key(r) == Some(KeyOf(r));
      assert Occurs(batch, BY_MINUTE, KeyOf(r));
      assert KeyOf(r) in metrics;
    }
    forall k | k in metrics
      ensures k.bucket >= 0
    {
      assert Occurs(batch, BY_MINUTE, k);
      var r :| r in batch && BY_MINUTE.key(r) == Some(k);
      assert KeyOf(r) == k;
    }
    forall k | k in errors
      ensures k.bucket >= 0
    {
      assert Occurs(batch, BY_ERROR, k);
      var r :| r in batch && BY_ERROR.key(r) == Some(k);
      assert ErrorOf(r) == Some(k);
    }
  }

  /** What has been stored, and when rows were last deleted, is the same for both kinds of tables. */
  lemma {:induction false} SameHistory(ops: seq<Op<Record, Series>>)
    ensures HistoryOf(ops, METRICS).ever == HistoryOf(ops, ERRORS).ever && HistoryOf(ops, METRICS).latest == HistoryOf(ops, ERRORS).latest
  {
    if ops != [] {
      SameHistory(ops[..|ops| - 1]);
    }
  }

  /** Where no metric row has lost a sample, no error row has. */
  lemma ErrorsComplete(ops: seq<Op<Record, Series>>, w: Range)
    requires Complete(HistoryOf(ops, METRICS), w)
    ensures Complete(HistoryOf(ops, ERRORS), w)
  {
    forall k | k in HistoryOf(ops, ERRORS).lossy && k.seconds == w.bucket
      ensures !(w.start <= k.row.bucket < w.end)
    {
      var wide := Rollup(k.seconds, Row(k.row.bucket, k.row.series.channel));
      LossyExactly(ops, k, ERRORS);
      LossyExactly(ops, wide, METRICS);
      ErrorsForget(ops, k, wide);
    }
  }

  lemma ErrorsForget(ops: seq<Op<Record, Series>>, k: Rollup<ErrorSeries>, wide: Rollup<Series>)
    requires Forgets(ops, k, ERRORS) && wide == Rollup(k.seconds, Row(k.row.bucket, k.row.series.channel))
    ensures Forgets(ops, wide, METRICS)
  {
    var l :| 0 <= l < |ops| && ForgetsAt(ops, l, k, ERRORS);
    var r :| Rolled(ERRORS.how, k.seconds).key(r) == Some(k) && WasDeleted(ops[..l], r, ERRORS);
    assert BY_ERROR.key(r) == ErrorOf(r) && r.failed && FLOW_BY_MINUTE.key(r) == Some(KeyOf(r));
    assert Rolled(METRICS.how, k.seconds).key(r) == Some(wide);
    assert WasDeleted(ops[..l], r, METRICS);
    assert CellOf(wide, METRICS.channel) == CellOf(k, ERRORS.channel);
    assert ForgetsAt(ops, l, wide, METRICS);
  }

  /** A call of the service by some goroutine; a flush is two of them. */
  datatype Call = Add(record: Record, now: int) | Begin | Commit | Fail | Sweep(now: int)

  /** The records that some calls have added, with the times they count under. */
  function AddedBy(calls: seq<Call>): seq<Record> {
    if calls == [] then []
    else
      var c := calls[|calls| - 1];
      AddedBy(calls[..|calls| - 1]) + if c.Add? then [Stamped(c.record, c.now)] else []
  }

  /** What a call may do to the books. */
  ghost predicate Serves(b: Books, c: Call, n: Books) {
    match c
    case Add(record, now) => n == Next(b, Added(Stamped(record, now), true)) || n == Next(b, Added(Stamped(record, now), false))
    case Begin => n == b || n == Next(b, Begun)
    case Commit => n == b || n == Next(b, Committed)
    case Fail => n == b || n == Next(b, Failed(true)) || n == Next(b, Failed(false))
    case Sweep(_) => n == b
  }

  ghost predicate Accounts(b: Books, calls: seq<Call>, i: nat)
    requires i <= |calls|
  {
    Balanced(b) && b.accepted == AddedBy(calls[..i])
  }

  lemma AccountsGrow(b: Books, n: Books, calls: seq<Call>, i: nat)
    requires i < |calls| && Accounts(b, calls, i) && Serves(b, calls[i], n)
    ensures Accounts(n, calls, i + 1)
  {
    assert calls[..i + 1][..i] == calls[..i];
    match calls[i]
    case Add(record, now) =>
      NextBalanced(b, Added(Stamped(record, now), true));
      NextBalanced(b, Added(Stamped(record, now), false));
    case Begin => NextBalanced(b, Begun);
    case Commit => NextBalanced(b, Committed);
    case Fail =>
      NextBalanced(b, Failed(true));
      NextBalanced(b, Failed(false));
    case Sweep(_) =>
  }

  lemma {:induction false} AddedFirst(calls: seq<Call>, i: nat)
    requires i <= |calls|
    ensures forall r :: r in AddedBy(calls[..i]) ==> r in AddedBy(calls)
    decreases |calls|
  {
    if i == |calls| {
      assert calls[..i] == calls;
    } else {
      AddedFirst(calls[..|calls| - 1], i);
      assert calls[..|calls| - 1][..i] == calls[..i];
    }
  }

  lemma InFlightDated(b: Books, calls: seq<Call>, i: nat)
    requires i <= |calls| && Accounts(b, calls, i) && Dated(AddedBy(calls))
    ensures Dated(b.flying)
  {
    AddedFirst(calls, i);
    forall r | r in b.flying
      ensures r in b.accepted
    {
      assert r in multiset(b.flying) && r in multiset(b.accepted);
    }
  }

  class Service {
    var mem: Memory
    var inflight: Memory?
    const metrics: Store<Record, Series, Series, Flow>
    const errors: Store<Record, ErrorSeries, Series, int>
    var open: bool
    var flushSeq: nat
    var dropped: nat
    ghost var books: Books

    /** The buffers hold the records that the books say. */
    ghost predicate Buffered()
      reads this, mem, inflight
    {
      && mem.Holds(books.pending)
      && (inflight != null ==> inflight != mem && inflight.Holds(books.flying))
      && (inflight == null ==> books.flying == [])
      && dropped == |books.lost|
    }

    /** Both kinds of tables show the records stored. */
    ghost predicate Linked(stored: seq<Record>)
      reads metrics, errors
    {
      && metrics.Valid() && metrics.e == METRICS && errors.Valid() && errors.e == ERRORS
      && metrics.ops == errors.ops && metrics.history.ever == stored
    }

    constructor ()
      ensures Buffered() && books == EMPTY && Linked([])
    {
      mem := new Memory();
      inflight := null;
      metrics := new Store(METRICS);
      errors := new Store(ERRORS);
      open, flushSeq, dropped, books := false, 0, 0, EMPTY;
    }

    /** Buffers a record, or drops it when there is no database and the buffer is full. */
    method AddRecord(record: Record, now: int)
      requires Buffered()
      modifies this`dropped, this`books, mem
      ensures Buffered()
      ensures books == Next(old(books), Added(Stamped(record, now), open || old(mem.Size()) < MAX_PENDING_KEYS))
    {
      ghost var r := Stamped(record, now);
      if !open && mem.Size() >= MAX_PENDING_KEYS {
        dropped, books := dropped + 1, Next(books, Added(r, false));
      } else {
        mem.Add(now, record, books.pending);
        books := Next(books, Added(r, true));
      }
    }

    /** Takes the buffer out for writing.  Only a flush with something to write counts. */
    method BeginFlush()
      requires Buffered() && inflight == null
      modifies this`mem, this`inflight, this`flushSeq, this`books
      ensures Buffered() && fresh(mem) && inflight == old(mem) && books == Next(old(books), Begun)
      ensures flushSeq == old(flushSeq) + if old(mem.Empty()) then 0 else 1
    {
      if !mem.Empty() {
        flushSeq := flushSeq + 1;
      }
      inflight := mem;
      mem := new Memory();
      assert [] + books.pending == books.pending;
      books := Next(books, Begun);
    }

    /** Writes a batch to all tables in one transaction. */
    method Persist(snap: Memory, ghost stored: seq<Record>, ghost batch: seq<Record>)
      requires Linked(stored) && Dated(batch) && snap.Holds(batch)
      modifies metrics, errors
      ensures Linked(stored + batch)
    {
      PersistTables(snap.metrics, snap.errors, stored, batch);
    }

    method PersistTables(counters: map<MinuteKey, Counters>, failures: map<ErrorKey, int>, ghost stored: seq<Record>, ghost batch: seq<Record>)
      requires Linked(stored) && Dated(batch) && Shows(counters, batch, BY_MINUTE, COUNTERS) && Shows(failures, batch, BY_ERROR, COUNTS)
      modifies metrics, errors
      ensures Linked(stored + batch)
    {
      var affected := Affected(counters, failures);
      BatchCovered(counters, failures, batch);
      FlowsShow(counters, batch);
      PersistFlows(FlowsOf(counters), affected, batch);
      PersistErrors(failures, affected, batch);
    }

    method PersistFlows(flows: map<MinuteKey, Flow>, affected: set<Row<Series>>, ghost batch: seq<Record>)
      requires metrics.Valid() && metrics.e == METRICS && Shows(flows, batch, FLOW_BY_MINUTE, FLOWS)
      requires Covers(affected, batch, METRICS) && forall a :: a in affected ==> a.bucket >= 0
      modifies metrics
      ensures metrics.Valid() && metrics.ops == old(metrics.ops) + [Persisted(batch, affected)]
      ensures metrics.history.ever == old(metrics.history.ever) + batch
    {
      MetricsSound();
      metrics.Persist(flows, affected, batch);
    }

    method PersistErrors(failures: map<ErrorKey, int>, affected: set<Row<Series>>, ghost batch: seq<Record>)
      requires errors.Valid() && errors.e == ERRORS && Shows(failures, batch, BY_ERROR, COUNTS)
      requires Covers(affected, batch, ERRORS) && forall a :: a in affected ==> a.bucket >= 0
      modifies errors
      ensures errors.Valid() && errors.ops == old(errors.ops) + [Persisted(batch, affected)]
    {
      ErrorsSound();
      errors.Persist(failures, affected, batch);
    }

    /** The batch in flight has been written. */
    method CommitFlush()
      requires Buffered() && Linked(books.stored) && inflight != null && Dated(books.flying)
      modifies this`books, this`inflight, metrics, errors
      ensures Buffered() && inflight == null && books == Next(old(books), Committed) && Linked(books.stored)
    {
      Persist(inflight, books.stored, books.flying);
      inflight, books := null, Next(books, Committed);
    }

    method MergeBack()
      requires Buffered() && inflight != null
      modifies this`inflight, this`books, mem
      ensures Buffered() && inflight == null && books == Next(old(books), Failed(true))
    {
      mem.MergeFrom(inflight, books.pending, books.flying);
      inflight, books := null, Next(books, Failed(true));
    }

    method GiveUp()
      requires Buffered() && inflight != null
      modifies this`inflight, this`books, this`dropped
      ensures Buffered() && inflight == null && books == Next(old(books), Failed(false))
    {
      var count := inflight.RequestCount(books.flying);
      dropped, inflight, books := dropped + count, null, Next(books, Failed(false));
    }

    /** The batch could not be written: it is merged back, unless the buffer would grow too large. */
    method FailFlush()
      requires Buffered() && inflight != null
      modifies this`inflight, this`books, this`dropped, mem
      ensures Buffered() && inflight == null
      ensures books == Next(old(books), Failed(old(mem.Size()) + old(inflight.Size()) <= MAX_PENDING_KEYS))
    {
      if mem.Size() + inflight.Size() > MAX_PENDING_KEYS {
        GiveUp();
      } else {
        MergeBack();
      }
    }

    /** Deletes old rows. */
    method Retain(now: int, ghost stored: seq<Record>)
      requires Linked(stored)
      modifies metrics, errors
      ensures Linked(stored)
    {
      metrics.Retain(now);
      errors.Retain(now);
    }

    /** A call that leaves the database alone. */
    method ServeBuffer(c: Call)
      requires Buffered() && !c.Commit? && !c.Sweep?
      modifies this`mem, this`inflight, this`flushSeq, this`dropped, this`books, mem
      ensures Buffered() && Serves(old(books), c, books) && books.stored == old(books.stored)
      ensures mem == old(mem) || fresh(mem)
      ensures inflight == null || inflight == old(inflight) || inflight == old(mem)
    {
      match c
      case Add(record, now) =>
        AddRecord(record, now);
      case Begin =>
        if inflight == null {
          BeginFlush();
        }
      case Fail =>
        if inflight != null {
          FailFlush();
        }
    }

    /** One call; a flush does not begin while another is under way. */
    method ServeOne(c: Call)
      requires Buffered() && Linked(books.stored) && Dated(books.flying)
      modifies this`mem, this`inflight, this`flushSeq, this`dropped, this`books, mem, metrics, errors
      ensures Buffered() && Linked(books.stored) && Serves(old(books), c, books)
      ensures mem == old(mem) || fresh(mem)
      ensures inflight == null || inflight == old(inflight) || inflight == old(mem)
    {
      if c.Commit? {
        if inflight != null {
          CommitFlush();
        }
      } else if c.Sweep? {
        Retain(c.now, books.stored);
      } else {
        ServeBuffer(c);
      }
    }

    method ServeNext(calls: seq<Call>, i: nat)
      requires i < |calls| && Buffered() && Linked(books.stored) && Accounts(books, calls, i) && Dated(AddedBy(calls))
      modifies this`mem, this`inflight, this`flushSeq, this`dropped, this`books, mem, metrics, errors
      ensures Buffered() && Linked(books.stored) && Accounts(books, calls, i + 1)
      ensures mem == old(mem) || fresh(mem)
      ensures inflight == null || inflight == old(inflight) || inflight == old(mem)
    {
      InFlightDated(books, calls, i);
      ServeOne(calls[i]);
      AccountsGrow(old(books), books, calls, i);
    }

    /**
     * Any calls in any order: what the tables, the batch in flight and the buffer show,
     * and what has been counted as dropped, are the records that were added, each once.
     */
    method Serve(calls: seq<Call>)
      requires Buffered() && Linked(books.stored) && books == EMPTY && Dated(AddedBy(calls))
      modifies this, mem, inflight, metrics, errors
      ensures Buffered() && Linked(books.stored) && Balanced(books) && books.accepted == AddedBy(calls)
    {
      for i := 0 to |calls|
        invariant Buffered() && Linked(books.stored) && Accounts(books, calls, i)
        invariant mem == old(mem) || fresh(mem)
        invariant inflight == null || inflight == old(mem) || inflight == old(inflight) || fresh(inflight)
      {
        ServeNext(calls, i);
      }
      assert calls[..|calls|] == calls;
    }

    /** What the tables hold of a range, as counters. */
    method ReadStored(w: Range, ghost stored: seq<Record>) returns (loaded: map<Row<Series>, Counters>)
      requires Linked(stored) && Aligned(w) && w.bucket in ROLLUPS
      requires w.start >= metrics.history.latest - RollupKept(w.bucket) && Complete(metrics.history, w)
      ensures Shows(loaded, stored, Asked(BY_MINUTE, w, Every), COUNTERS)
    {
      ErrorsComplete(metrics.ops, w);
      SameHistory(metrics.ops);
      LoadedShows(metrics.minutes, metrics.rollups, metrics.history, w, METRICS);
      LoadedShows(errors.minutes, errors.rollups, errors.history, w, ERRORS);
      var flows, errs := Loaded(metrics.rollups, w.bucket, w.start, w.end), Loaded(errors.rollups, w.bucket, w.start, w.end);
      loaded := LoadCounters(flows, errs, w, stored);
    }

    /**
     * One undisturbed read of a range: the counters per bucket and channel are those
     * of all the stored and pending records that the query asks for.
     */
    method Collect(now: nat, name: string, matches: Series -> bool) returns (data: map<Row<Series>, Counters>, w: Range)
      requires Buffered() && Linked(books.stored) && Dated(books.pending) && metrics.history.latest <= now
      requires Complete(metrics.history, ParseRange(now, name))
      ensures w == ParseRange(now, name) && Aligned(w)
      ensures Shows(data, books.stored + books.pending, Asked(BY_MINUTE, w, matches), COUNTERS)
      ensures OnGrid(books.stored + books.pending, Asked(BY_MINUTE, w, matches), w)
    {
      w := ParseRange(now, name);
      RangeAligned(now, name);
      RangeIsKept(now, name, metrics.history.latest);
      var loaded := ReadStored(w, books.stored);
      data := Combine(loaded, mem.metrics, w, matches, books.stored, books.pending);
      AllDated(books.stored, books.pending);
      AskedOnGrid(books.stored + books.pending, BY_MINUTE, w, matches);
    }

    /**
     * The snapshot of a range: its total and every point of its trend are the sums of
     * the fields of the stored and pending records they are about, and the trend adds
     * up to the total.
     */
    method SnapshotOf(now: nat, name: string, matches: Series -> bool) returns (total: Counters, trend: seq<Counters>)
      requires Buffered() && Linked(books.stored) && Dated(books.pending) && metrics.history.latest <= now
      requires Complete(metrics.history, ParseRange(now, name))
      ensures var asked := Asked(BY_MINUTE, ParseRange(now, name), matches);
              total == Total(books.stored + books.pending, Coarse(asked, ToAll), (), COUNTERS)
      ensures Sums(total, books.stored + books.pending, InRange(ParseRange(now, name), matches))
      ensures TrendSums(trend, books.stored + books.pending, ParseRange(now, name), matches)
      ensures SumOf(trend, COUNTERS) == total
    {
      var data, w := Collect(now, name, matches);
      total, trend := Summarize(data, w, books.stored + books.pending, Asked(BY_MINUTE, w, matches));
      TotalIs(books.stored + books.pending, w, matches);
      AllDated(books.stored, books.pending);
      TrendIs(books.stored + books.pending, w, matches, trend);
    }
  }

  /** One point per bucket of the range, each the sum over its records. */
  ghost predicate TrendSums(trend: seq<Counters>, records: seq<Record>, w: Range, matches: Series -> bool) {
    && w.start + |trend| * w.bucket == w.end
    && forall i :: 0 <= i < |trend| ==> Sums(trend[i], records, InRange(BucketOf(w, i), matches))
  }

  lemma TrendIs(records: seq<Record>, w: Range, matches: Series -> bool, trend: seq<Counters>)
    requires Aligned(w) && w.start + |trend| * w.bucket == w.end && SinceEpoch(records, BY_MINUTE)
    requires forall i :: 0 <= i < |trend| ==>
               trend[i] == Total(records, Coarse(Asked(BY_MINUTE, w, matches), ToBucket), w.start + i * w.bucket, COUNTERS)
    ensures TrendSums(trend, records, w, matches)
  {
    forall r | r in records
      ensures KeyOf(r).bucket >= 0
    {
      assert BY_MINUTE.key(r) == Some(KeyOf(r));
    }
    forall i | 0 <= i < |trend|
      ensures Sums(trend[i], records, InRange(BucketOf(w, i), matches))
    {
      Ladder(i, |trend|, w.bucket);
      PointIs(records, w, matches, i);
    }
  }

  /** The totals and the trend of some counters. */
  method Summarize(data: map<Row<Series>, Counters>, w: Range, ghost records: seq<Record>, ghost asked: Count<Record, Row<Series>, Counters>)
      returns (total: Counters, trend: seq<Counters>)
    requires Aligned(w) && Shows(data, records, asked, COUNTERS) && OnGrid(records, asked, w)
    ensures total == Total(records, Coarse(asked, ToAll), (), COUNTERS)
    ensures w.start + |trend| * w.bucket == w.end
    ensures forall i :: 0 <= i < |trend| ==> trend[i] == Total(records, Coarse(asked, ToBucket), w.start + i * w.bucket, COUNTERS)
    ensures SumOf(trend, COUNTERS) == total
  {
    CountersLawful();
    total, trend := Snapshot(data, w, COUNTERS, records, asked);
  }

  method Combine(loaded: map<Row<Series>, Counters>, buffered: map<MinuteKey, Counters>, w: Range, matches: Series -> bool,
      ghost stored: seq<Record>, ghost pending: seq<Record>) returns (data: map<Row<Series>, Counters>)
    requires Shows(loaded, stored, Asked(BY_MINUTE, w, Every), COUNTERS) && Shows(buffered, pending, BY_MINUTE, COUNTERS)
    ensures Shows(data, stored + pending, Asked(BY_MINUTE, w, matches), COUNTERS)
  {
    CountersLawful();
    data := CombineTable(loaded, buffered, w, matches, COUNTERS, stored, pending, BY_MINUTE);
  }

  lemma AllDated(stored: seq<Record>, pending: seq<Record>)
    requires SinceEpoch(stored, FLOW_BY_MINUTE) && Dated(pending)
    ensures SinceEpoch(stored + pending, BY_MINUTE)
  {
    forall r | r in stored
      ensures KeyOf(r).bucket >= 0
    {
      assert FLOW_BY_MINUTE.key(r) == Some(KeyOf(r));
    }
  }
}

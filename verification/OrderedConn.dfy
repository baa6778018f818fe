/**
 * Rewriting the header order of the HTTP/1.1 requests in one outgoing byte stream.
 * The stream arrives in writes cut anywhere.  `Feed` says what one byte does,
 * `Whole` what becomes of a whole stream; the connection's `Write` works in
 * slices.  All three agree.
 */
module OrderedConn {
  import opened ChunkedTracker
  import opened HeaderOrder
  import opened Scanner
  import opened Text
  import opened Wrappers
  import ChunkedBody

  const MAX_BUFFERED_HEADER: nat := 0x10_0000

  /** The connection: header bytes held back, body bytes still to pass, the body's tracker, all bytes emitted. */
  datatype Conn = Conn(header: string, body: nat, chunked: Option<State>, out: string)

  const START: Conn := Conn("", 0, None, "")

  ghost predicate NoEnd(header: string) {
    forall k :: !At(header, k, HeaderOrder.END)
  }

  /** `e` is where the first empty line of `all` is, or -1. */
  ghost predicate FirstEnd(all: string, e: int) {
    && (e == -1 || At(all, e, HeaderOrder.END))
    && forall k :: At(all, k, HeaderOrder.END) ==> 0 <= e <= k
  }

  ghost predicate Sound(t: Conn) {
    && NoEnd(t.header)
    && (t.chunked.Some? ==> Valid(t.chunked.value) && t.body == 0)
    && (t.header != "" ==> t.body == 0 && t.chunked.None?)
  }

  /** What becomes of a complete header block. */
  type Rewriter = string -> Ordered

  function Rewrite(order: Order): Rewriter {
    (header: string) => if |header| >= 4 then OrderedHeader(header, order) else Ordered(header, 0, false)
  }

  /** `rewrite` does what the reference does; met only where the reference is at hand. */
  ghost predicate Rewrites(rewrite: Rewriter, order: Order) {
    forall header {:trigger OrderedHeader(header, order)} :: |header| >= 4 ==> rewrite(header) == OrderedHeader(header, order)
  }

  /** The connection once the header in front of it is complete. */
  function AfterHeader(t: Conn, o: Ordered): Conn {
    Conn("", if o.chunked then 0 else o.contentLength, if o.chunked then Some(NEW) else None, t.out + o.header)
  }

  /** One byte of body, one byte of chunked body, or one byte of header. */
  function Feed(rewrite: Rewriter, t: Conn, b: char): Next<Conn> {
    if t.body > 0 then
      Go(t.(body := t.body - 1, out := t.out + [b]))
    else if t.chunked.Some? then
      match Step(t.chunked.value, b)
      case Go(u) => Go(t.(chunked := Some(u), out := t.out + [b]))
      case Done(u) => Go(t.(chunked := None, out := t.out + [b]))
      case Bad(u, ate) => Bad(t, false)
    else
      var header := t.header + [b];
      if EndsWith(header, HeaderOrder.END) then Go(AfterHeader(t, rewrite(header)))
      else Go(t.(header := header))
  }

  type Machine = (Conn, char) -> Next<Conn>

  function Feeder(rewrite: Rewriter): Machine {
    (t: Conn, b: char) => Feed(rewrite, t, b)
  }

  /** Running the connection over some fixed data, from a place in it. */
  type Run = (Conn, nat) -> Outcome<Conn>

  function Runner(rewrite: Rewriter, data: string): Run {
    (t: Conn, i: nat) => if i <= |data| then Scan(t, Feeder(rewrite), data, i) else Outcome(t, i, Failed)
  }

  // ------------------------------------------------------- many bytes at once

  lemma {:induction false} BodyRun(rewrite: Rewriter, t: Conn, data: string, i: nat, n: nat)
    requires n <= t.body && i + n <= |data|
    ensures Runner(rewrite, data)(t, i) == Runner(rewrite, data)(t.(body := t.body - n, out := t.out + data[i..i + n]), i + n)
    decreases n
  {
    if n == 0 {
      assert t.out + data[i..i] == t.out;
    } else {
      BodyRun(rewrite, t.(body := t.body - 1, out := t.out + [data[i]]), data, i + 1, n - 1);
      assert t.out + [data[i]] + data[i + 1..i + n] == t.out + data[i..i + n];
    }
  }

  /** What the connection makes of a chunked body that its tracker scans with outcome `o`. */
  ghost predicate ChunkedRun(t: Conn, run: Run, data: string, i: nat, o: Outcome<State>)
    requires i <= o.used <= |data|
  {
    var out := t.out + data[i..o.used];
    match o.status
    case Going => run(t, i) == Outcome(t.(chunked := Some(o.t), out := out), |data|, Going)
    case Complete => run(t, i) == run(t.(chunked := None, out := out), o.used)
    case Failed => run(t, i).status == Failed
  }

  lemma {:induction false} ChunkedRuns(rewrite: Rewriter, t: Conn, data: string, i: nat)
    requires t.body == 0 && t.chunked.Some? && i <= |data|
    ensures ChunkedRun(t, Runner(rewrite, data), data, i, Scan(t.chunked.value, Step, data, i))
    decreases |data| - i
  {
    if i == |data| {
      assert t.out + data[i..i] == t.out;
    } else if Step(t.chunked.value, data[i]).Go? {
      var u := t.(chunked := Some(Step(t.chunked.value, data[i]).t), out := t.out + [data[i]]);
      ChunkedRuns(rewrite, u, data, i + 1);
      var used := Scan(t.chunked.value, Step, data, i).used;
      assert t.out + [data[i]] + data[i + 1..used] == t.out + data[i..used];
    } else {
      assert data[i..i + 1] == [data[i]];
    }
  }

  lemma HeaderByte(rewrite: Rewriter, t: Conn, data: string, i: nat)
    requires t.body == 0 && t.chunked.None? && i < |data|
    ensures var header := t.header + [data[i]];
            var u := if EndsWith(header, HeaderOrder.END) then AfterHeader(t, rewrite(header)) else t.(header := header);
            Runner(rewrite, data)(t, i) == Runner(rewrite, data)(u, i + 1)
  {
  }

  lemma AtTheEnd(rewrite: Rewriter, t: Conn, data: string)
    ensures Runner(rewrite, data)(t, |data|) == Outcome(t, |data|, Going)
  {
  }

  /** What the header bytes do, `all` being those held back and those to come, and `e` the first empty line in them. */
  ghost predicate HeaderRun(t: Conn, rewrite: Rewriter, run: Run, data: string, i: nat, all: string, e: int) {
    if e < 0 then
      run(t, i) == Outcome(t.(header := all), |data|, Going)
    else
      && |t.header| < e + 4 <= |all| == |t.header| + |data| - i
      && run(t, i) == run(AfterHeader(t, rewrite(all[..e + 4])), i + e + 4 - |t.header|)
  }

  lemma {:induction false} HeaderRuns(rewrite: Rewriter, run: Run, t: Conn, data: string, i: nat, all: string, e: int)
    requires run == Runner(rewrite, data)
    requires t.body == 0 && t.chunked.None? && i <= |data| && NoEnd(t.header)
    requires all == t.header + data[i..] && FirstEnd(all, e)
    ensures HeaderRun(t, rewrite, run, data, i, all, e)
    decreases |data| - i
  {
    if i == |data| {
      assert all == t.header;
      AtTheEnd(rewrite, t, data);
    } else {
      var header := t.header + [data[i]];
      HeaderByte(rewrite, t, data, i);
      assert all == header + data[i + 1..];
      NoEarlierEnd(t.header, data[i..]);
      if EndsWith(header, HeaderOrder.END) {
        EndHere(t.header, data[i], data[i + 1..]);
      } else {
        StillNoEnd(t.header, data[i]);
        HeaderRuns(rewrite, run, t.(header := header), data, i + 1, all, e);
      }
    }
  }

  lemma EndHere(header: string, b: char, more: string)
    requires EndsWith(header + [b], HeaderOrder.END)
    ensures var all := header + [b] + more;
            At(all, |header| - 3, HeaderOrder.END) && all[..|header| + 1] == header + [b]
  {
    var all := header + [b] + more;
    assert all[|header| - 3..|header| + 1] == (header + [b])[|header| - 3..];
  }

  lemma NoEarlierEnd(header: string, more: string)
    requires NoEnd(header)
    ensures forall e :: At(header + more, e, HeaderOrder.END) ==> |header| < e + 4
  {
    forall e | 0 <= e <= |header| - 4
      ensures !At(header + more, e, HeaderOrder.END)
    {
      assert !At(header, e, HeaderOrder.END);
      assert header[e..e + 4] == (header + more)[e..e + 4];
    }
  }

  lemma StillNoEnd(header: string, b: char)
    requires NoEnd(header) && !EndsWith(header + [b], HeaderOrder.END)
    ensures NoEnd(header + [b])
  {
    NoEarlierEnd(header, [b]);
  }

  // ------------------------------------------------------- the whole stream

  /** What a stream makes the connection emit and hold back, or that it breaks a chunked body. */
  datatype Sent = Sent(out: string, held: string) | Broken

  function After(out: string, rest: Sent): Sent {
    match rest
    case Sent(more, held) => Sent(out + more, held)
    case Broken => Broken
  }

  /** How a stream starts: a header held back, a whole request, a header and part of its body, or a broken body. */
  datatype First = Held | Request(out: string, used: nat) | Partway(out: string) | Garbled

  function FirstRequest(rewrite: Rewriter, stream: string): First {
    var e := Find(stream, HeaderOrder.END);
    if e < 0 then Held
    else FirstBody(rewrite(stream[..e + 4]), stream[e + 4..], e + 4)
  }

  /** A request from the end of its header, which is `used` bytes long. */
  function FirstBody(o: Ordered, tail: string, used: nat): First {
    if o.chunked then FirstChunks(o, tail, used, ChunkedBody.BodyEnd(tail, 0, SizeOf))
    else if o.contentLength > |tail| then Partway(o.header + tail)
    else Request(o.header + tail[..o.contentLength], used + o.contentLength)
  }

  function FirstChunks(o: Ordered, tail: string, used: nat, body: ChunkedBody.Parse): First {
    match body
    case End(n) => if n <= |tail| then Request(o.header + tail[..n], used + n) else Garbled
    case Partial => Partway(o.header + tail)
    case Malformed => Garbled
  }

  type Reader = string -> First

  /** The reader for one rewriting. */
  function Requests(rewrite: Rewriter): Reader {
    (stream: string) => FirstRequest(rewrite, stream)
  }

  /** Request after request: each header reordered, each body as it is. */
  function Whole(first: Reader, stream: string): Sent
    decreases |stream|
  {
    match first(stream)
    case Held => Sent("", stream)
    case Partway(out) => Sent(out, "")
    case Garbled => Broken
    case Request(out, used) => if 0 < used <= |stream| then After(out, Whole(first, stream[used..])) else Broken
  }

  ghost predicate Matches(o: Outcome<Conn>, out: string, whole: Sent) {
    match whole
    case Sent(more, held) => o.status == Going && o.t.out == out + more && o.t.header == held
    case Broken => o.status == Failed
  }

  lemma Suffix(data: string, i: nat, e: nat, n: nat)
    requires i + e + n <= |data|
    ensures data[i..][e..] == data[i + e..] && data[i + e..][n..] == data[i + e + n..]
    ensures data[i + e..][..n] == data[i + e..i + e + n]
  {
  }

  lemma ScanFrom<S>(t: S, step: (S, char) -> Next<S>, data: string, j: nat)
    requires j <= |data|
    ensures var c := Scan(t, step, data, j); c.(used := c.used - j) == Scan(t, step, data[j..], 0)
  {
    assert data[..j] + data[j..] == data;
    ScanSuffix(t, step, data[..j], data[j..], 0);
  }

  /** The tracker over the rest of the data reads it as the reader does. */
  lemma ReaderFrom(data: string, j: nat)
    requires j <= |data|
    ensures var c := Scan(NEW, Step, data, j);
            ChunkedBody.Agree(c.(used := c.used - j), ChunkedBody.BodyEnd(data[j..], 0, SizeOf))
  {
    ScanFrom(NEW, Step, data, j);
    ChunkedBody.TrackerIsReader(data[j..]);
  }

  lemma AfterMatches(o: Outcome<Conn>, out: string, first: string, whole: Sent)
    requires Matches(o, out + first, whole)
    ensures Matches(o, out, After(first, whole))
  {
    if whole.Sent? {
      assert out + first + whole.out == out + (first + whole.out);
    }
  }

  lemma Regroup(a: string, b: string, c: string)
    ensures a + b + c == a + (b + c)
  {
  }

  predicate Between(t: Conn) {
    t.header == "" && t.body == 0 && t.chunked.None?
  }

  /** What a run makes of the start of the rest of the data. */
  ghost predicate Taken(run: Run, t: Conn, data: string, i: nat, f: First)
    requires i <= |data|
  {
    match f
    case Held => run(t, i) == Outcome(t.(header := data[i..]), |data|, Going)
    case Partway(out) => run(t, i).status == Going && run(t, i).t.out == t.out + out && run(t, i).t.header == ""
    case Garbled => run(t, i).status == Failed
    case Request(out, used) => 0 < used <= |data| - i && run(t, i) == run(Conn("", 0, None, t.out + out), i + used)
  }

  lemma ChunkedTaken(run: Run, t: Conn, data: string, j: nat, o: Ordered, used: nat, c: Outcome<State>, body: ChunkedBody.Parse)
    requires o.chunked && 0 < used <= j <= c.used <= |data| && (c.status == Going ==> c.used == |data|)
    requires run(t, j - used) == run(AfterHeader(t, o), j)
    requires ChunkedRun(AfterHeader(t, o), run, data, j, c)
    requires ChunkedBody.Agree(c.(used := c.used - j), body)
    ensures Taken(run, t, data, j - used, FirstChunks(o, data[j..], used, body))
  {
    Suffix(data, 0, j, c.used - j);
    Regroup(t.out, o.header, data[j..c.used]);
  }

  lemma CountedTaken(rewrite: Rewriter, t: Conn, data: string, j: nat, o: Ordered, used: nat)
    requires !o.chunked && 0 < used <= j <= |data|
    requires Runner(rewrite, data)(t, j - used) == Runner(rewrite, data)(AfterHeader(t, o), j)
    ensures Taken(Runner(rewrite, data), t, data, j - used, FirstBody(o, data[j..], used))
  {
    var n := if o.contentLength > |data| - j then |data| - j else o.contentLength;
    BodyRun(rewrite, AfterHeader(t, o), data, j, n);
    Suffix(data, 0, j, n);
    Regroup(t.out, o.header, data[j..j + n]);
    AtTheEnd(rewrite, Conn("", o.contentLength - n, None, t.out + o.header + data[j..j + n]), data);
  }

  lemma BodyTaken(rewrite: Rewriter, t: Conn, data: string, j: nat, o: Ordered, used: nat)
    requires 0 < used <= j <= |data|
    requires Runner(rewrite, data)(t, j - used) == Runner(rewrite, data)(AfterHeader(t, o), j)
    ensures Taken(Runner(rewrite, data), t, data, j - used, FirstBody(o, data[j..], used))
  {
    if o.chunked {
      ChunkedRuns(rewrite, AfterHeader(t, o), data, j);
      ReaderFrom(data, j);
      ChunkedTaken(Runner(rewrite, data), t, data, j, o, used, Scan(NEW, Step, data, j), ChunkedBody.BodyEnd(data[j..], 0, SizeOf));
    } else {
      CountedTaken(rewrite, t, data, j, o, used);
    }
  }

  lemma RequestTaken(rewrite: Rewriter, t: Conn, data: string, i: nat, rest: string, e: nat)
    requires Between(t) && i <= |data| && rest == data[i..]
    requires HeaderRun(t, rewrite, Runner(rewrite, data), data, i, rest, e)
    ensures Taken(Runner(rewrite, data), t, data, i, FirstBody(rewrite(rest[..e + 4]), rest[e + 4..], e + 4))
  {
    Suffix(data, i, e + 4, 0);
    BodyTaken(rewrite, t, data, i + e + 4, rewrite(rest[..e + 4]), e + 4);
  }

  lemma FirstTaken(rewrite: Rewriter, t: Conn, data: string, i: nat)
    requires Between(t) && i <= |data|
    ensures Taken(Runner(rewrite, data), t, data, i, FirstRequest(rewrite, data[i..]))
  {
    var rest := data[i..];
    var e := Find(rest, HeaderOrder.END);
    assert t.header + rest == rest;
    HeaderRuns(rewrite, Runner(rewrite, data), t, data, i, rest, e);
    if e >= 0 {
      RequestTaken(rewrite, t, data, i, rest, e);
    }
  }

  lemma {:induction false} WholeFrom(first: Reader, run: Run, t: Conn, data: string, i: nat)
    requires forall u: Conn, k: nat {:trigger Taken(run, u, data, k, first(data[k..]))} ::
               Between(u) && k <= |data| ==> Taken(run, u, data, k, first(data[k..]))
    requires Between(t) && i <= |data|
    ensures Matches(run(t, i), t.out, Whole(first, data[i..]))
    decreases |data| - i
  {
    var f := first(data[i..]);
    assert Taken(run, t, data, i, f);
    match f
    case Held => assert t.out + "" == t.out;
    case Partway(out) =>
    case Garbled =>
    case Request(out, used) =>
      Suffix(data, i, used, 0);
      WholeFrom(first, run, Conn("", 0, None, t.out + out), data, i + used);
      AfterMatches(run(t, i), t.out, out, Whole(first, data[i + used..]));
  }

  /** Byte by byte, the connection does to a whole stream what `Whole` says. */
  lemma StreamIsWhole(rewrite: Rewriter, stream: string)
    ensures Matches(Scan(START, Feeder(rewrite), stream, 0), "", Whole(Requests(rewrite), stream))
  {
    var run, first := Runner(rewrite, stream), Requests(rewrite);
    forall u: Conn, k: nat | Between(u) && k <= |stream|
      ensures Taken(run, u, stream, k, first(stream[k..]))
    {
      FirstTaken(rewrite, u, stream, k);
    }
    WholeFrom(first, run, START, stream, 0);
    assert stream[0..] == stream;
  }

  // ---------------------------------------------------------- splitting writes

  function Join(writes: seq<string>): string {
    if writes == [] then "" else writes[0] + Join(writes[1..])
  }

  /** The connection after a series of writes, or None once one breaks a chunked body. */
  function FeedAll(machine: Machine, t: Conn, writes: seq<string>): Option<Conn>
    decreases |writes|
  {
    if writes == [] then Some(t)
    else
      var o := Scan(t, machine, writes[0], 0);
      if o.status == Failed then None else FeedAll(machine, o.t, writes[1..])
  }

  lemma FeedNext(machine: Machine, t: Conn, writes: seq<string>, i: nat)
    requires i < |writes|
    ensures var o := Scan(t, machine, writes[i], 0);
            FeedAll(machine, t, writes[i..]) == if o.status == Failed then None else FeedAll(machine, o.t, writes[i + 1..])
  {
    assert writes[i..][0] == writes[i] && writes[i..][1..] == writes[i + 1..];
  }

  lemma {:induction false} FeedAllIsScan(machine: Machine, t: Conn, writes: seq<string>)
    requires forall u: Conn, b: char {:trigger machine(u, b)} :: !machine(u, b).Done?
    ensures var o := Scan(t, machine, Join(writes), 0);
            FeedAll(machine, t, writes) == (if o.status == Failed then None else Some(o.t)) && o.status != Complete
    decreases |writes|
  {
    if writes != [] {
      ScanConcat(t, machine, writes[0], Join(writes[1..]));
      NeverDone(machine, t, writes[0], 0);
      var o := Scan(t, machine, writes[0], 0);
      if o.status == Going {
        FeedAllIsScan(machine, o.t, writes[1..]);
      }
    }
  }

  lemma {:induction false} NeverDone(machine: Machine, t: Conn, data: string, i: nat)
    requires i <= |data|
    requires forall u: Conn, b: char {:trigger machine(u, b)} :: !machine(u, b).Done?
    ensures Scan(t, machine, data, i).status != Complete
    decreases |data| - i
  {
    if i < |data| && machine(t, data[i]).Go? {
      NeverDone(machine, machine(t, data[i]).t, data, i + 1);
    }
  }

  lemma FeederNeverDone(rewrite: Rewriter)
    ensures forall u: Conn, b: char {:trigger Feeder(rewrite)(u, b)} :: !Feeder(rewrite)(u, b).Done?
  {
  }

  /**
   * However a stream is cut into writes, the same bytes are emitted and the same
   * held back, or the stream breaks; and they are those of the whole-stream
   * transform.
   */
  lemma SplitsAgree(rewrite: Rewriter, writes: seq<string>, others: seq<string>)
    requires Join(writes) == Join(others)
    ensures FeedAll(Feeder(rewrite), START, writes) == FeedAll(Feeder(rewrite), START, others)
    ensures Whole(Requests(rewrite), Join(writes))
         == match FeedAll(Feeder(rewrite), START, writes)
            case Some(u) => Sent(u.out, u.header)
            case None => Broken
  {
    FeederNeverDone(rewrite);
    FeedAllIsScan(Feeder(rewrite), START, writes);
    FeedAllIsScan(Feeder(rewrite), START, others);
    StreamIsWhole(rewrite, Join(writes));
  }

  // ------------------------------------------------------------ the connection

  /** Where the bytes go.  A write may take any part of its data and may fail at any time. */
  class Sink {
    var out: string

    constructor ()
      ensures out == ""
    {
      out := "";
    }

    method Write(data: string) returns (written: nat, failed: bool)
      modifies this
      ensures written <= |data| && out == old(out) + data[..written]
    {
      written :| written <= |data|;
      failed := *;
      out := out + data[..written];
    }

    method WriteAll(data: string) returns (total: nat, failed: bool)
      modifies this
      ensures total <= |data| && out == old(out) + data[..total]
      ensures !failed ==> total == |data|
    {
      total := 0;
      var rest := data;
      while |rest| > 0
        invariant total <= |data| && rest == data[total..]
        invariant out == old(out) + data[..total]
      {
        var written, bad := Write(rest);
        Pieces(data, total, written);
        Regroup(old(out), data[..total], rest[..written]);
        total := total + written;
        if bad || written == 0 {
          return total, true;
        }
        rest := rest[written..];
      }
      failed := false;
    }
  }

  lemma Pieces(data: string, at: nat, n: nat)
    requires at + n <= |data|
    ensures data[at..][n..] == data[at + n..] && data[..at] + data[at..][..n] == data[..at + n]
    ensures data[at..][..n] == data[at..at + n]
  {
  }

  function Through(t: Conn, s: Option<State>, piece: string): Conn {
    t.(chunked := s, out := t.out + piece)
  }

  /** A chunk-body byte that the tracker takes. */
  lemma ChunkByte(rewrite: Rewriter, t: Conn, data: string, i: nat)
    requires t.body == 0 && t.chunked.Some? && i < |data| && !Step(t.chunked.value, data[i]).Bad?
    ensures var s := Step(t.chunked.value, data[i]);
            Runner(rewrite, data)(t, i) == Runner(rewrite, data)(Through(t, if s.Go? then Some(s.t) else None, [data[i]]), i + 1)
  {
  }

  type Stepper = (State, char) -> Next<State>

  ghost predicate ByteTaken(run: Run, step: Stepper, u: Conn, data: string, k: nat)
    requires u.chunked.Some? && k < |data|
  {
    var r := step(u.chunked.value, data[k]);
    r.Bad? || run(u, k) == run(Through(u, if r.Go? then Some(r.t) else None, [data[k]]), k + 1)
  }

  ghost predicate TakesChunks(run: Run, step: Stepper, data: string) {
    forall u: Conn, k: nat {:trigger ByteTaken(run, step, u, data, k)} ::
      u.body == 0 && u.chunked.Some? && k < |data| ==> ByteTaken(run, step, u, data, k)
  }

  lemma RunnerTakesChunks(rewrite: Rewriter, data: string)
    ensures TakesChunks(Runner(rewrite, data), Step, data)
  {
    forall u: Conn, k: nat | u.body == 0 && u.chunked.Some? && k < |data|
      ensures ByteTaken(Runner(rewrite, data), Step, u, data, k)
    {
      if !Step(u.chunked.value, data[k]).Bad? {
        ChunkByte(rewrite, u, data, k);
      }
    }
  }

  /** A piece of chunked body that the tracker takes whole. */
  lemma {:induction false} ChunkPiece(run: Run, step: Stepper, t: Conn, s: State, data: string, i: nat, piece: string)
    requires TakesChunks(run, step, data)
    requires t.body == 0 && t.chunked == Some(s)
    requires i + |piece| <= |data| && data[i..i + |piece|] == piece
    requires var c := Scan(s, step, piece, 0); c.used == |piece| && c.status != Failed
    ensures var c := Scan(s, step, piece, 0);
            run(t, i) == run(Through(t, if c.status == Going then Some(c.t) else None, piece), i + |piece|)
    decreases |piece|
  {
    if piece == "" {
      assert t.out + piece == t.out;
    } else {
      var more := piece[1..];
      assert [piece[0]] + more == piece && data[i] == data[i..i + |piece|][0];
      assert data[i + 1..i + 1 + |more|] == data[i..i + |piece|][1..];
      var r := step(s, piece[0]);
      assert ByteTaken(run, step, t, data, i);
      if r.Go? {
        ScanSuffix(r.t, step, [piece[0]], more, 0);
        var u := Through(t, Some(r.t), [piece[0]]);
        ChunkPiece(run, step, u, r.t, data, i + 1, more);
        Regroup(t.out, [piece[0]], more);
      } else {
        assert piece == [data[i]];
      }
    }
  }

  /** Writing part of what a look ahead let through. */
  lemma WrittenPart(run: Run, step: Stepper, t: Conn, s: State, p: string, at: nat, used: nat, written: nat)
    requires TakesChunks(run, step, p)
    requires t.body == 0 && t.chunked == Some(s) && at <= |p|
    requires var o := Scan(s, step, p[at..], 0); o.status != Failed && o.used == used
    requires written <= used
    ensures var piece := p[at..at + written];
            var c := Scan(s, step, piece, 0);
            && c.used == written && c.status != Failed
            && run(t, at) == run(Through(t, if c.status == Going then Some(c.t) else None, piece), at + written)
  {
    var piece := p[at..at + written];
    assert piece + p[at + written..] == p[at..];
    Rescan(s, step, piece, p[at + written..]);
    ChunkPiece(run, step, t, s, p, at, piece);
  }

  /** A chunked body that the tracker finds broken in a look ahead. */
  lemma ChunksBroken(rewrite: Rewriter, t: Conn, data: string, i: nat)
    requires t.body == 0 && t.chunked.Some? && i <= |data|
    requires Scan(t.chunked.value, Step, data[i..], 0).status == Failed
    ensures Runner(rewrite, data)(t, i).status == Failed
  {
    assert data[..i] + data[i..] == data;
    ScanSuffix(t.chunked.value, Step, data[..i], data[i..], 0);
    ChunkedRuns(rewrite, t, data, i);
  }

  ghost predicate BodyStep(run: Run, t: Conn, data: string, i: nat, n: nat)
    requires n <= t.body && i + n <= |data|
  {
    run(t, i) == run(t.(body := t.body - n, out := t.out + data[i..i + n]), i + n)
  }

  ghost predicate HeldRun(t: Conn, run: Run, data: string, i: nat, all: string) {
    var u := t.(header := all);
    run(t, i) == Outcome(u, |data|, Going) && run(u, |data|) == run(t, i)
  }

  ghost predicate BrokenStep(run: Run, t: Conn, data: string, i: nat)
    requires t.chunked.Some? && i <= |data|
  {
    Scan(t.chunked.value, Step, data[i..], 0).status == Failed ==> run(t, i).status == Failed
  }

  /** The steps of a run that a write takes as slices. */
  ghost predicate InSlices(run: Run, rewrite: Rewriter, data: string) {
    && TakesChunks(run, Step, data)
    && (forall t: Conn, i: nat, n: nat {:trigger BodyStep(run, t, data, i, n)} ::
          n <= t.body && i + n <= |data| ==> BodyStep(run, t, data, i, n))
    && (forall t: Conn, i: nat {:trigger BrokenStep(run, t, data, i)} ::
          t.body == 0 && t.chunked.Some? && i <= |data| ==> BrokenStep(run, t, data, i))
    && (forall t: Conn, i: nat, all: string, e: int {:trigger HeaderRun(t, rewrite, run, data, i, all, e)} ::
          t.body == 0 && t.chunked.None? && i <= |data| && NoEnd(t.header) && all == t.header + data[i..] && FirstEnd(all, e) ==>
          HeaderRun(t, rewrite, run, data, i, all, e))
    && (forall t: Conn {:trigger run(t, |data|)} :: run(t, |data|) == Outcome(t, |data|, Going))
  }

  lemma RunnerInSlices(rewrite: Rewriter, data: string)
    ensures InSlices(Runner(rewrite, data), rewrite, data)
  {
    var run := Runner(rewrite, data);
    RunnerTakesChunks(rewrite, data);
    forall t: Conn, i: nat, n: nat | n <= t.body && i + n <= |data|
      ensures BodyStep(run, t, data, i, n)
    {
      BodyRun(rewrite, t, data, i, n);
    }
    forall t: Conn, i: nat | t.body == 0 && t.chunked.Some? && i <= |data|
      ensures BrokenStep(run, t, data, i)
    {
      if Scan(t.chunked.value, Step, data[i..], 0).status == Failed {
        ChunksBroken(rewrite, t, data, i);
      }
    }
    forall t: Conn, i: nat, all: string, e: int |
      t.body == 0 && t.chunked.None? && i <= |data| && NoEnd(t.header) && all == t.header + data[i..] && FirstEnd(all, e)
      ensures HeaderRun(t, rewrite, run, data, i, all, e)
    {
      HeaderRuns(rewrite, run, t, data, i, all, e);
    }
    forall t: Conn
      ensures run(t, |data|) == Outcome(t, |data|, Going)
    {
      AtTheEnd(rewrite, t, data);
    }
  }

  lemma HeaderDone(run: Run, rewrite: Rewriter, t: Conn, data: string, i: nat, all: string, e: nat, ordered: Ordered)
    requires HeaderRun(t, rewrite, run, data, i, all, e)
    requires ordered == rewrite(all[..e + 4])
    ensures run(t, i) == run(AfterHeader(t, ordered), i + e + 4 - |t.header|)
  {
  }

  datatype Failure = NoFailure | SinkFailed | BadChunk | HeaderTooLong | HeaderLost

  class Connection {
    const order: Order
    const sink: Sink
    var header: string
    var bodyRemaining: nat
    var chunked: Tracker?

    ghost function Now(): Conn
      reads this, sink, chunked
    {
      Conn(header, bodyRemaining, if chunked == null then None else Some(chunked.Now()), sink.out)
    }

    constructor (order: Order, sink: Sink)
      ensures Now() == START.(out := sink.out) && this.order == order && this.sink == sink
      ensures chunked == null
    {
      this.order, this.sink := order, sink;
      header, bodyRemaining, chunked := "", 0, null;
    }

    /** Passes on body bytes of `p` from `at`. */
    method PassBody(p: string, at: nat, ghost rewrite: Rewriter, ghost run: Run) returns (n: nat, failed: bool)
      requires Sound(Now()) && bodyRemaining > 0 && at < |p| && InSlices(run, rewrite, p)
      modifies this, sink
      ensures Sound(Now()) && at + n <= |p| && chunked == null
      ensures run(Now(), at + n) == run(old(Now()), at)
      ensures !failed ==> n > 0
      ensures header == old(header)
    {
      var bodyBytes := if |p| - at < bodyRemaining then |p| - at else bodyRemaining;
      Pieces(p, at, bodyBytes);
      n, failed := sink.WriteAll(p[at..at + bodyBytes]);
      assert BodyStep(run, old(Now()), p, at, n);
      assert p[at..at + bodyBytes][..n] == p[at..at + n];
      bodyRemaining := bodyRemaining - n;
    }

    /** Brings the tracker up to date with a piece that has been written. */
    method Track(piece: string)
      requires Sound(Now()) && chunked != null
      requires var c := Scan(chunked.Now(), Step, piece, 0); c.status != Failed && c.used == |piece|
      modifies this, chunked
      ensures Sound(Now()) && (chunked == null || chunked == old(chunked))
      ensures var c := Scan(old(Now()).chunked.value, Step, piece, 0);
              Now() == old(Now()).(chunked := if c.status == Going then Some(c.t) else None)
    {
      ScanValid(chunked.Now(), piece, 0);
      var _, done, _ := chunked.Consume(piece);
      if done {
        chunked := null;
      }
    }

    /** How much of the data belongs to the chunked body, found on a copy of the tracker. */
    method LookAhead(data: string) returns (n: nat, broken: bool)
      requires Sound(Now()) && chunked != null
      ensures var c := Scan(chunked.Now(), Step, data, 0); n == c.used && broken == (c.status == Failed)
      ensures data != "" && !broken ==> n > 0
    {
      var preview := chunked.Clone();
      var chunkBytes, _, bad := preview.Consume(data);
      return chunkBytes, bad;
    }

    /** Writes a piece of chunked body, as far as the sink takes it. */
    method WriteChunks(p: string, at: nat, chunkBytes: nat, ghost run: Run) returns (written: nat, failed: bool)
      requires Sound(Now()) && chunked != null && at < |p| && TakesChunks(run, Step, p)
      requires var c := Scan(chunked.Now(), Step, p[at..], 0); chunkBytes == c.used && c.status != Failed
      modifies this, sink, chunked
      ensures Sound(Now()) && written <= chunkBytes && (chunked == null || chunked == old(chunked))
      ensures run(Now(), at + written) == run(old(Now()), at)
      ensures !failed ==> written == chunkBytes
      ensures header == old(header)
    {
      ghost var before := Now();
      Pieces(p, at, chunkBytes);
      written, failed := sink.WriteAll(p[at..at + chunkBytes]);
      var piece := p[at..at + written];
      assert p[at..at + chunkBytes][..written] == piece;
      WrittenPart(run, Step, before, before.chunked.value, p, at, chunkBytes, written);
      Track(piece);
      assert Now() == Through(before, Now().chunked, piece);
    }

    /** Passes on bytes of a chunked body that a look ahead has found sound. */
    method PassChunks(p: string, at: nat, ghost run: Run) returns (n: nat, failure: Failure)
      requires Sound(Now()) && chunked != null && at < |p| && TakesChunks(run, Step, p) && BrokenStep(run, Now(), p, at)
      modifies this, sink, chunked
      ensures Sound(Now()) && at + n <= |p| && (chunked == null || chunked == old(chunked))
      ensures run(Now(), at + n) == run(old(Now()), at)
      ensures failure == BadChunk ==> run(Now(), at + n).status == Failed
      ensures failure == NoFailure ==> n > 0
      ensures failure == NoFailure || failure == BadChunk || failure == SinkFailed
      ensures header == old(header)
    {
      var chunkBytes, broken := LookAhead(p[at..]);
      if broken {
        return 0, BadChunk;
      }
      var written, failed := WriteChunks(p, at, chunkBytes, run);
      return written, if failed then SinkFailed else NoFailure;
    }

    /** Reorders the complete header at the front of `all`. */
    method Reorder(all: string, headerEnd: nat, ghost rewrite: Rewriter) returns (block: string, ordered: Ordered)
      requires Rewrites(rewrite, order) && At(all, headerEnd, HeaderOrder.END)
      ensures block == all[..headerEnd + 4] && ordered == rewrite(block)
    {
      block := all[..headerEnd + 4];
      assert At(block, |block| - 4, HeaderOrder.END) by {
        assert block[headerEnd..] == all[headerEnd..headerEnd + 4];
      }
      ordered := OrderRequestHeader(block, order);
    }

    /** Sends a reordered header and turns to the body. */
    method SendHeader(ordered: Ordered) returns (failed: bool)
      requires bodyRemaining == 0 && chunked == null
      modifies this, sink
      ensures Sound(Now()) && header == "" && (chunked == null || fresh(chunked))
      ensures !failed ==> Now() == AfterHeader(old(Now()), ordered)
      ensures failed ==> Between(Now()) && Now().out <= AfterHeader(old(Now()), ordered).out
    {
      header := "";
      var written;
      written, failed := sink.WriteAll(ordered.header);
      if !failed {
        assert ordered.header[..written] == ordered.header;
        if ordered.chunked {
          chunked := new Tracker();
        } else {
          bodyRemaining := ordered.contentLength;
        }
      }
    }

    /**
     * Sends the complete header at the front of `all`.  When the sink fails there,
     * `whole` is the connection that would have been, `end` the end of the header.
     */
    method FinishHeader(all: string, headerEnd: nat, ghost p: string, at: nat, ghost rewrite: Rewriter, ghost run: Run)
        returns (n: nat, failed: bool, ghost whole: Conn, ghost end: nat)
      requires Rewrites(rewrite, order) && bodyRemaining == 0 && chunked == null && at <= |p| && At(all, headerEnd, HeaderOrder.END)
      requires HeaderRun(Now(), rewrite, run, p, at, all, headerEnd)
      modifies this, sink
      ensures Sound(Now()) && header == "" && (chunked == null || fresh(chunked))
      ensures 0 < n && at + n == end <= |p| && run(whole, end) == run(old(Now()), at)
      ensures !failed ==> Now() == whole
      ensures failed ==> Between(Now()) && Now().out <= whole.out
    {
      ghost var before := Now();
      var block, ordered := Reorder(all, headerEnd, rewrite);
      n := |block| - |header|;
      HeaderDone(run, rewrite, before, p, at, all, headerEnd, ordered);
      whole, end := AfterHeader(before, ordered), at + n;
      failed := SendHeader(ordered);
    }

    /** Keeps an incomplete header. */
    method HoldBack(all: string, p: string, at: nat, ghost run: Run) returns (n: nat, failure: Failure)
      requires bodyRemaining == 0 && chunked == null && NoEnd(all) && at < |p|
      requires HeldRun(Now(), run, p, at, all)
      modifies this
      ensures Sound(Now()) && chunked == null && at + n <= |p|
      ensures failure == NoFailure ==> n > 0 && run(Now(), at + n) == run(old(Now()), at) && |header| <= MAX_BUFFERED_HEADER
      ensures failure == HeaderTooLong ==> run(old(Now()), at) == Outcome(Now(), |p|, Going) && |header| > MAX_BUFFERED_HEADER
      ensures failure == NoFailure || failure == HeaderTooLong
    {
      ghost var before := Now();
      header := all;
      assert Now() == before.(header := all);
      if |header| > MAX_BUFFERED_HEADER {
        return 0, HeaderTooLong;
      }
      return |p| - at, NoFailure;
    }

    /** Finishes the header, or gives up the rest of `p` with it. */
    method TakeHeader(all: string, headerEnd: nat, p: string, at: nat, ghost rewrite: Rewriter, ghost run: Run)
        returns (n: nat, failure: Failure, ghost whole: Conn, ghost end: nat)
      requires Rewrites(rewrite, order) && bodyRemaining == 0 && chunked == null && at < |p| && At(all, headerEnd, HeaderOrder.END)
      requires HeaderRun(Now(), rewrite, run, p, at, all, headerEnd)
      modifies this, sink
      ensures Sound(Now()) && header == "" && at + n <= |p| && (chunked == null || fresh(chunked))
      ensures failure == NoFailure ==> n > 0 && run(Now(), at + n) == run(old(Now()), at)
      ensures failure == HeaderLost ==>
                && at + n == |p| && Between(Now()) && end <= |p|
                && run(whole, end) == run(old(Now()), at) && Now().out <= whole.out
      ensures failure == NoFailure || failure == HeaderLost
    {
      var failed;
      n, failed, whole, end := FinishHeader(all, headerEnd, p, at, rewrite, run);
      n, failure := if failed then |p| - at else n, if failed then HeaderLost else NoFailure;
    }

    /** Takes the rest of `p` as header bytes; `all` are those and the ones held back. */
    method PassHeader(p: string, at: nat, all: string, headerEnd: int, ghost rewrite: Rewriter, ghost run: Run)
        returns (n: nat, failure: Failure, ghost whole: Conn, ghost end: nat)
      requires Rewrites(rewrite, order) && Sound(Now()) && bodyRemaining == 0 && chunked == null && at < |p|
      requires if headerEnd < 0 then NoEnd(all) else At(all, headerEnd, HeaderOrder.END)
      requires headerEnd >= 0 ==> HeaderRun(Now(), rewrite, run, p, at, all, headerEnd)
      requires headerEnd < 0 ==> HeldRun(Now(), run, p, at, all)
      modifies this, sink
      ensures Sound(Now()) && at + n <= |p| && (chunked == null || fresh(chunked))
      ensures failure == NoFailure ==> n > 0 && run(Now(), at + n) == run(old(Now()), at) && |header| <= MAX_BUFFERED_HEADER
      ensures failure == HeaderTooLong ==> run(old(Now()), at) == Outcome(Now(), |p|, Going) && |header| > MAX_BUFFERED_HEADER
      ensures failure == HeaderLost ==>
                && at + n == |p| && Between(Now()) && end <= |p|
                && run(whole, end) == run(old(Now()), at) && Now().out <= whole.out
      ensures failure == NoFailure || failure == HeaderTooLong || failure == HeaderLost
    {
      if headerEnd < 0 {
        whole, end := Now(), |p|;
        n, failure := HoldBack(all, p, at, run);
        return;
      }
      n, failure, whole, end := TakeHeader(all, headerEnd, p, at, rewrite, run);
    }

    /** One turn of the loop over a piece of the stream. */
    method PassOn(p: string, at: nat, ghost rewrite: Rewriter, ghost run: Run)
        returns (n: nat, failure: Failure, ghost whole: Conn, ghost end: nat)
      requires Rewrites(rewrite, order) && Sound(Now()) && at < |p| && InSlices(run, rewrite, p)
      modifies this, sink, chunked
      ensures Sound(Now()) && at + n <= |p| && (chunked == null || chunked == old(chunked) || fresh(chunked))
      ensures failure == NoFailure ==> n > 0 && (header == old(header) || |header| <= MAX_BUFFERED_HEADER)
      ensures failure != HeaderTooLong && failure != HeaderLost ==> run(Now(), at + n) == run(old(Now()), at)
      ensures failure == BadChunk ==> run(Now(), at + n).status == Failed
      ensures failure == HeaderTooLong ==> run(old(Now()), at) == Outcome(Now(), |p|, Going) && |header| > MAX_BUFFERED_HEADER
      ensures failure == HeaderLost ==>
                && at + n == |p| && Between(Now()) && end <= |p|
                && run(whole, end) == run(old(Now()), at) && Now().out <= whole.out
    {
      whole, end := Now(), at;
      if bodyRemaining > 0 {
        var failed: bool;
        n, failed := PassBody(p, at, rewrite, run);
        failure := if failed then SinkFailed else NoFailure;
      } else if chunked != null {
        assert BrokenStep(run, Now(), p, at);
        n, failure := PassChunks(p, at, run);
      } else {
        var all := header + p[at..];
        var headerEnd := Find(all, HeaderOrder.END);
        assert HeaderRun(Now(), rewrite, run, p, at, all, headerEnd);
        n, failure, whole, end := PassHeader(p, at, all, headerEnd, rewrite, run);
      }
    }

    method WriteAs(p: string, ghost rewrite: Rewriter, ghost run: Run)
        returns (n: nat, failure: Failure, ghost whole: Conn, ghost end: nat)
      requires Rewrites(rewrite, order) && Sound(Now()) && InSlices(run, rewrite, p)
      modifies this, sink, chunked
      ensures Sound(Now()) && (chunked == null || chunked == old(chunked) || fresh(chunked))
      ensures n <= |p|
      ensures failure == NoFailure ==> n == |p| && (header == old(header) || |header| <= MAX_BUFFERED_HEADER)
      ensures failure != HeaderTooLong && failure != HeaderLost ==> run(old(Now()), 0) == run(Now(), n)
      ensures failure == BadChunk ==> run(old(Now()), 0).status == Failed
      ensures failure == HeaderTooLong ==> run(old(Now()), 0) == Outcome(Now(), |p|, Going) && |header| > MAX_BUFFERED_HEADER
      ensures failure == HeaderLost ==>
                && n == |p| && Between(Now()) && end <= |p|
                && run(old(Now()), 0) == run(whole, end) && Now().out <= whole.out
    {
      ghost var was := Now();
      n, failure, whole, end := 0, NoFailure, Now(), 0;
      while n < |p|
        invariant n <= |p| && Sound(Now()) && run(Now(), n) == run(was, 0)
        invariant chunked == null || chunked == old(chunked) || fresh(chunked)
        invariant failure == NoFailure && (header == old(header) || |header| <= MAX_BUFFERED_HEADER)
      {
        var step;
        step, failure, whole, end := PassOn(p, n, rewrite, run);
        n := n + step;
        if failure != NoFailure {
          return;
        }
      }
    }

    /**
     * Takes a piece of the stream.  Without failure all of it has the effect of its
     * bytes one by one.  A failing sink or a broken chunk leaves a state from which
     * the bytes not yet reported would lead on as before.
     */
    method Write(p: string) returns (n: nat, failure: Failure)
      requires Sound(Now())
      modifies this, sink, chunked
      ensures Sound(Now()) && (chunked == null || chunked == old(chunked) || fresh(chunked))
      ensures n <= |p|
      ensures failure == NoFailure ==> n == |p| && (header == old(header) || |header| <= MAX_BUFFERED_HEADER)
      ensures failure == NoFailure ==> Runner(Rewrite(order), p)(old(Now()), 0) == Outcome(Now(), |p|, Going)
      ensures failure == SinkFailed || failure == BadChunk ==>
                Runner(Rewrite(order), p)(old(Now()), 0) == Runner(Rewrite(order), p)(Now(), n)
      ensures failure == BadChunk ==> Runner(Rewrite(order), p)(old(Now()), 0).status == Failed
      ensures failure == HeaderTooLong ==>
                Runner(Rewrite(order), p)(old(Now()), 0) == Outcome(Now(), |p|, Going) && |header| > MAX_BUFFERED_HEADER
      ensures failure == HeaderLost ==>
                && n == |p| && Between(Now())
                && exists whole: Conn, end: nat {:trigger Runner(Rewrite(order), p)(whole, end)} ::
                     && end <= |p| && Now().out <= whole.out
                     && Runner(Rewrite(order), p)(old(Now()), 0) == Runner(Rewrite(order), p)(whole, end)
    {
      RunnerInSlices(Rewrite(order), p);
      ghost var whole, end;
      n, failure, whole, end := WriteAs(p, Rewrite(order), Runner(Rewrite(order), p));
    }

    /**
     * Writes piece after piece, up to the first failure.  Without one the connection is
     * where the pieces lead to byte by byte; a new one has sent what becomes of the
     * whole stream, however it was cut.
     */
    method WriteEach(pieces: seq<string>) returns (failure: Failure)
      requires Sound(Now())
      modifies this, sink, chunked
      ensures failure == NoFailure ==> FeedAll(Feeder(Rewrite(order)), old(Now()), pieces) == Some(Now())
      ensures failure == BadChunk ==> FeedAll(Feeder(Rewrite(order)), old(Now()), pieces) == None
      ensures failure == NoFailure && old(Now()) == START ==>
                Whole(Requests(Rewrite(order)), Join(pieces)) == Sent(sink.out, header)
    {
      ghost var machine, start := Feeder(Rewrite(order)), Now();
      failure := NoFailure;
      assert pieces[0..] == pieces;
      for i := 0 to |pieces|
        invariant Sound(Now()) && (chunked == null || chunked == old(chunked) || fresh(chunked))
        invariant failure == NoFailure && FeedAll(machine, Now(), pieces[i..]) == FeedAll(machine, start, pieces)
      {
        failure := WriteOne(pieces, i, machine, start);
        if failure != NoFailure {
          return;
        }
      }
      SplitsAgree(Rewrite(order), pieces, pieces);
    }

    method WriteOne(pieces: seq<string>, i: nat, ghost machine: Machine, ghost start: Conn) returns (failure: Failure)
      requires Sound(Now()) && i < |pieces| && machine == Feeder(Rewrite(order))
      requires FeedAll(machine, Now(), pieces[i..]) == FeedAll(machine, start, pieces)
      modifies this, sink, chunked
      ensures Sound(Now()) && (chunked == null || chunked == old(chunked) || fresh(chunked))
      ensures failure == NoFailure ==> FeedAll(machine, Now(), pieces[i + 1..]) == FeedAll(machine, start, pieces)
      ensures failure == BadChunk ==> FeedAll(machine, start, pieces) == None
    {
      ghost var before := Now();
      var n;
      n, failure := Write(pieces[i]);
      assert Runner(Rewrite(order), pieces[i])(before, 0) == Scan(before, machine, pieces[i], 0);
      FeedNext(machine, before, pieces, i);
    }
  }
}

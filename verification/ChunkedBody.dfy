/**
 * What a chunked body is (section 7.1 of RFC 9112), written twice without the
 * tracker: as a recursive-descent reader over the whole data and as an encoder.
 * The tracker agrees with the reader on all data, and stops exactly at the end of
 * every encoded body.
 */
module ChunkedBody {
  import opened ChunkedTracker
  import opened Scanner
  import opened Text
  import opened Wrappers
  import HeaderOrder

  /** Where the body ends, or that the data stops short of its end, or breaks the format. */
  datatype Parse = End(at: nat) | Partial | Malformed

  /** The first `pat` at or after `i`, or -1. */
  function FindFrom(data: string, i: nat, pat: string): (j: int)
    requires i <= |data|
    ensures j == -1 || (i <= j && At(data, j, pat))
    ensures forall k :: i <= k && At(data, k, pat) ==> 0 <= j <= k
  {
    var j := Find(data[i..], pat);
    AtDrop(data, i, pat);
    if j < 0 then -1 else i + j
  }

  lemma AtDrop(s: string, i: nat, pat: string)
    requires i <= |s|
    ensures forall k :: 0 <= k && At(s[i..], k, pat) ==> At(s, i + k, pat)
    ensures forall k :: i <= k && At(s, k, pat) ==> At(s[i..], k - i, pat)
  {
    forall k | 0 <= k && At(s[i..], k, pat)
      ensures At(s, i + k, pat)
    {
      assert s[i..][k..k + |pat|] == s[i + k..i + k + |pat|];
    }
    forall k | i <= k && At(s, k, pat)
      ensures At(s[i..], k - i, pat)
    {
      assert s[i..][k - i..k - i + |pat|] == s[k..k + |pat|];
    }
  }

  /** The end of the trailer section that starts at `i`. */
  function TrailerEnd(data: string, i: nat): (p: Parse)
    requires i <= |data|
    ensures p.End? ==> i < p.at <= |data|
  {
    if At(data, i, CRLF) then End(i + 2)
    else
      var k := FindFrom(data, i, END);
      if (if k < 0 then |data| else k + 4) - i > MAX_HEADER then Malformed
      else if k < 0 then Partial
      else End(k + 4)
  }

  /** The end of the body that starts at `i`: a size line, its data and CRLF, and on; or the last size and the trailers. */
  function BodyEnd(data: string, i: nat, size: Sizer): (p: Parse)
    requires i <= |data|
    ensures p.End? ==> i < p.at <= |data|
    decreases |data| - i
  {
    var j := FindFrom(data, i, CRLF);
    if (if j < 0 then |data| else j + 2) - i > MAX_HEADER then Malformed
    else if j < 0 then Partial
    else
      match size(data[i..j])
      case None => Malformed
      case Some(n) =>
        if n == 0 then TrailerEnd(data, j + 2)
        else DataEnd(data, j + 2 + n, size)
  }

  /** Past the data of one chunk, which runs to `e`. */
  function DataEnd(data: string, e: nat, size: Sizer): (p: Parse)
    ensures p.End? ==> e < p.at <= |data|
    decreases |data| - e
  {
    if e >= |data| then Partial
    else if data[e] != '\r' then Malformed
    else if e + 1 == |data| then Partial
    else if data[e + 1] != '\n' then Malformed
    else BodyEnd(data, e + 2, size)
  }

  ghost predicate Agree(o: Outcome<State>, p: Parse) {
    match p
    case End(n) => o.status == Complete && o.used == n
    case Partial => o.status == Going
    case Malformed => o.status == Failed
  }

  // ------------------------------------------------------------------ proofs

  lemma EndsWithAt(data: string, i: nat, m: nat, pat: string)
    requires i <= m < |data|
    ensures EndsWith(data[i..m] + [data[m]], pat) <==> i <= m + 1 - |pat| && At(data, m + 1 - |pat|, pat)
  {
    assert data[i..m] + [data[m]] == data[i..m + 1];
    if i <= m + 1 - |pat| {
      assert data[i..m + 1][m + 1 - i - |pat|..] == data[m + 1 - |pat|..m + 1];
    }
  }

  type Stepper = (State, char) -> Next<State>

  /** What byte `m` of a size line that started at `i` does. */
  ghost predicate SizeByte(r: Next<State>, t: State, data: string, i: nat, m: nat, size: Sizer)
    requires i <= m < |data|
  {
    if m + 1 - i > MAX_HEADER then r.Bad?
    else if i < m && At(data, m - 1, CRLF) then r == AfterSize(t, data[i..m + 1], size(data[i..m - 1]))
    else r == Go(t.(line := data[i..m + 1]))
  }

  /** What byte `m` of a trailer section that started at `i` does. */
  ghost predicate TrailerByte(r: Next<State>, t: State, data: string, i: nat, m: nat)
    requires i <= m < |data|
  {
    if m + 1 - i > MAX_HEADER then r.Bad?
    else if (m == i + 1 && At(data, i, CRLF)) || (i + 3 <= m && At(data, m - 3, END)) then r.Done?
    else r == Go(t.(trailers := data[i..m + 1]))
  }

  /** What the data of one chunk and the CRLF after it do. */
  ghost predicate ChunkOutcome(t: State, step: Stepper, data: string, i: nat)
    requires t.phase.Data? && i <= |data|
  {
    var e, o := i + t.remaining, Scan(t, step, data, i);
    if e >= |data| then o.status == Going
    else if data[e] != '\r' then o.status == Failed
    else if e + 1 == |data| then o.status == Going
    else if data[e + 1] != '\n' then o.status == Failed
    else o == Scan(t.(remaining := 0, crlf := 2, phase := Size), step, data, e + 2)
  }

  /** All that the proof needs to know of the tracker's step. */
  ghost predicate Follows(step: Stepper, data: string, size: Sizer) {
    && (forall t: State, i: nat, m: nat {:trigger SizeByte(step(t, data[m]), t, data, i, m, size)} ::
          i <= m < |data| && t.phase.Size? && t.line == data[i..m] ==>
          SizeByte(step(t, data[m]), t, data, i, m, size))
    && (forall t: State, i: nat, m: nat {:trigger TrailerByte(step(t, data[m]), t, data, i, m)} ::
          i <= m < |data| && t.phase.Trailers? && t.trailers == data[i..m] ==>
          TrailerByte(step(t, data[m]), t, data, i, m))
    && (forall t: State, i: nat {:trigger ChunkOutcome(t, step, data, i)} ::
          i <= |data| && t.phase.Data? && 0 < t.remaining ==> ChunkOutcome(t, step, data, i))
  }

  lemma StepSizeByte(t: State, data: string, i: nat, m: nat, size: Sizer)
    requires t.phase.Size? && i <= m < |data| && t.line == data[i..m]
    ensures SizeByte(StepWith(size, t, data[m]), t, data, i, m, size)
  {
    EndsWithAt(data, i, m, CRLF);
    var line := data[i..m + 1];
    assert data[i..m] + [data[m]] == line;
    assert i < m ==> line[..|line| - 2] == data[i..m - 1];
  }

  lemma StepTrailerByte(t: State, data: string, i: nat, m: nat)
    requires t.phase.Trailers? && i <= m < |data| && t.trailers == data[i..m]
    ensures TrailerByte(Step(t, data[m]), t, data, i, m)
  {
    EndsWithAt(data, i, m, END);
    assert data[i..m] + [data[m]] == data[i..m + 1];
    if m == i + 1 {
      assert data[i..i + 2] == data[i..m + 1];
    }
  }

  lemma StepChunk(t: State, data: string, i: nat)
    requires t.phase.Data? && 0 < t.remaining && i <= |data|
    ensures ChunkOutcome(t, Step, data, i)
  {
    var e := i + t.remaining;
    DataRun(t, data, i, if e <= |data| then t.remaining else |data| - i);
  }

  lemma StepFollows(data: string)
    ensures Follows(Step, data, SizeOf)
  {
    forall t: State, i: nat, m: nat | i <= m < |data| && t.phase.Size? && t.line == data[i..m]
      ensures SizeByte(Step(t, data[m]), t, data, i, m, SizeOf)
    {
      StepSizeByte(t, data, i, m, SizeOf);
    }
    forall t: State, i: nat, m: nat | i <= m < |data| && t.phase.Trailers? && t.trailers == data[i..m]
      ensures TrailerByte(Step(t, data[m]), t, data, i, m)
    {
      StepTrailerByte(t, data, i, m);
    }
    forall t: State, i: nat | i <= |data| && t.phase.Data? && 0 < t.remaining
      ensures ChunkOutcome(t, Step, data, i)
    {
      StepChunk(t, data, i);
    }
  }

  /** A size line as a whole: `j` is its CRLF. */
  ghost predicate SizeOutcome(t: State, step: Stepper, data: string, i: nat, j: int, found: Option<nat>, o: Outcome<State>) {
    if (if j < 0 then |data| else j + 2) - i > MAX_HEADER then o.status == Failed
    else if j < 0 then o.status == Going
    else if found.None? then o.status == Failed
    else 0 <= j + 2 <= |data| && o == Scan(AfterSize(t, "", found).t, step, data, j + 2)
  }

  /** Reading a size line from `m` bytes into it. */
  lemma {:induction false} SizeLine(t: State, step: Stepper, data: string, i: nat, m: nat, size: Sizer)
    requires Follows(step, data, size)
    requires t.phase.Size? && i <= m <= |data| && t.line == data[i..m] && m - i <= MAX_HEADER
    requires forall k :: i <= k <= m - 2 ==> !At(data, k, CRLF)
    ensures var j := FindFrom(data, i, CRLF);
            SizeOutcome(t, step, data, i, j, if j < 0 then None else size(data[i..j]), Scan(t, step, data, m))
    decreases |data| - m
  {
    if m < |data| {
      assert SizeByte(step(t, data[m]), t, data, i, m, size);
      if m + 1 - i <= MAX_HEADER {
        if i < m && At(data, m - 1, CRLF) {
          assert FindFrom(data, i, CRLF) == m - 1;
        } else {
          SizeLine(t.(line := data[i..m + 1]), step, data, i, m + 1, size);
        }
      }
    }
  }

  /** Reading a trailer section from `m` bytes into it. */
  lemma {:induction false} TrailerLines(t: State, step: Stepper, data: string, i: nat, m: nat, size: Sizer)
    requires Follows(step, data, size)
    requires t.phase.Trailers? && i <= m <= |data| && t.trailers == data[i..m] && m - i <= MAX_HEADER
    requires m >= i + 2 ==> !At(data, i, CRLF)
    requires forall k :: i <= k <= m - 4 ==> !At(data, k, END)
    ensures Agree(Scan(t, step, data, m), TrailerEnd(data, i))
    decreases |data| - m
  {
    if m < |data| {
      assert TrailerByte(step(t, data[m]), t, data, i, m);
      if i + 3 <= m && At(data, m - 3, END) {
        assert FindFrom(data, i, END) == m - 3;
      } else if m + 1 - i <= MAX_HEADER && !(m == i + 1 && At(data, i, CRLF)) {
        TrailerLines(t.(trailers := data[i..m + 1]), step, data, i, m + 1, size);
      }
    }
  }

  /** Putting a size line together with what follows it. */
  lemma LineThenRest(t: State, step: Stepper, data: string, i: nat, j: int, found: Option<nat>, size: Sizer)
    requires t.phase.Size? && i <= |data|
    requires j == FindFrom(data, i, CRLF) && found == if j < 0 then None else size(data[i..j])
    requires SizeOutcome(t, step, data, i, j, found, Scan(t, step, data, i))
    requires 0 <= j && j + 2 - i <= MAX_HEADER && found.Some? ==>
               Agree(Scan(AfterSize(t, "", found).t, step, data, j + 2),
                     if found.value == 0 then TrailerEnd(data, j + 2) else DataEnd(data, j + 2 + found.value, size))
    ensures Agree(Scan(t, step, data, i), BodyEnd(data, i, size))
  {
  }

  lemma {:induction false} LinesAreRead(t: State, step: Stepper, data: string, i: nat, size: Sizer)
    requires Follows(step, data, size)
    requires t.phase.Size? && t.line == "" && t.trailers == "" && i <= |data|
    ensures Agree(Scan(t, step, data, i), BodyEnd(data, i, size))
    decreases |data| - i, 1
  {
    var j := FindFrom(data, i, CRLF);
    var found := if j < 0 then None else size(data[i..j]);
    SizeLine(t, step, data, i, i, size);
    if j >= 0 && found.Some? {
      if found.value == 0 {
        TrailerLines(AfterSize(t, "", found).t, step, data, j + 2, j + 2, size);
      } else {
        DataIsRead(AfterSize(t, "", found).t, step, data, j + 2, size);
      }
    }
    LineThenRest(t, step, data, i, j, found, size);
  }

  lemma {:induction false} DataIsRead(t: State, step: Stepper, data: string, i: nat, size: Sizer)
    requires Follows(step, data, size)
    requires t.phase.Data? && 0 < t.remaining && t.line == "" && t.trailers == "" && i <= |data|
    ensures Agree(Scan(t, step, data, i), DataEnd(data, i + t.remaining, size))
    decreases |data| - i, 0
  {
    assert ChunkOutcome(t, step, data, i);
    var e := i + t.remaining;
    if e + 1 < |data| && data[e] == '\r' && data[e + 1] == '\n' {
      LinesAreRead(t.(remaining := 0, crlf := 2, phase := Size), step, data, e + 2, size);
    }
  }

  // ------------------------------------------------------------- main results

  /** The tracker and the recursive-descent reader agree on all data. */
  lemma TrackerIsReader(data: string)
    ensures Agree(Scan(NEW, Step, data, 0), BodyEnd(data, 0, SizeOf))
  {
    StepFollows(data);
    LinesAreRead(NEW, Step, data, 0, SizeOf);
  }

  // ---------------------------------------------------------------- the encoder

  /** A chunk: its size line (any extensions included) and its data. */
  datatype Chunk = Chunk(line: string, data: string)

  predicate SizeLineFor(line: string, n: nat, size: Sizer) {
    HeaderOrder.Unbroken(line) && |line| + 2 <= MAX_HEADER && size(line) == Some(n)
  }

  function EncodeChunk(c: Chunk): string {
    c.line + CRLF + (c.data + CRLF)
  }

  function EncodeLast(last: string, trailers: seq<string>): string {
    last + CRLF + (HeaderOrder.Render(trailers) + CRLF)
  }

  /** The chunks, a last size line that reads as zero, the trailer lines and an empty line. */
  function EncodeBody(chunks: seq<Chunk>, last: string, trailers: seq<string>): string {
    if chunks == [] then EncodeLast(last, trailers)
    else EncodeChunk(chunks[0]) + EncodeBody(chunks[1..], last, trailers)
  }

  ghost predicate WellFormed(chunks: seq<Chunk>, last: string, trailers: seq<string>, size: Sizer) {
    && (forall i :: 0 <= i < |chunks| ==> chunks[i].data != "" && SizeLineFor(chunks[i].line, |chunks[i].data|, size))
    && SizeLineFor(last, 0, size)
    && (forall i :: 0 <= i < |trailers| ==> trailers[i] != "" && HeaderOrder.Unbroken(trailers[i]))
    && |HeaderOrder.Render(trailers)| + 2 <= MAX_HEADER
  }

  /** A line that starts at `i` ends at its own CRLF. */
  lemma LineAt(data: string, i: nat, line: string, rest: string)
    requires i <= |data| && data[i..] == line + CRLF + rest && HeaderOrder.Unbroken(line)
    ensures FindFrom(data, i, CRLF) == i + |line| && i + |line| + 2 <= |data|
    ensures data[i..i + |line|] == line && data[i + |line| + 2..] == rest
  {
    HeaderOrder.FindLineEnd(line, rest);
    assert data[i..i + |line|] == data[i..][..|line|];
    assert data[i + |line| + 2..] == data[i..][|line| + 2..];
  }

  lemma EndIsTwo(s: string, k: nat)
    ensures At(s, k, END) ==> At(s, k, CRLF) && At(s, k + 2, CRLF)
  {
    if At(s, k, END) {
      assert s[k..k + 2] == s[k..k + 4][..2] && s[k + 2..k + 4] == s[k..k + 4][2..];
    }
  }

  /** After a line and its CRLF, a CRLF lies at the end of the line or in what follows. */
  lemma AfterFirstLine(line: string, tail: string, k: nat)
    requires HeaderOrder.Unbroken(line) && At(line + CRLF + tail, k, CRLF)
    ensures k == |line| || (k >= |line| + 2 && At(tail, k - |line| - 2, CRLF))
  {
    var s := line + CRLF + tail;
    HeaderOrder.FindLineEnd(line, tail);
    assert k >= |line|;
    assert s[k..k + 2][0] == '\r';
    assert s[|line| + 1] == '\n';
    if k >= |line| + 2 {
      assert tail[k - |line| - 2..k - |line|] == s[k..k + 2];
    }
  }

  /** In a block of non-empty lines and an empty one, two CRLFs in a row occur first at its end. */
  lemma {:induction false} TrailersEnd(lines: seq<string>, rest: string, k: nat)
    requires forall i :: 0 <= i < |lines| ==> lines[i] != "" && HeaderOrder.Unbroken(lines[i])
    requires lines != []
    requires At(HeaderOrder.Render(lines) + CRLF + rest, k, CRLF)
    ensures 0 < k
    ensures At(HeaderOrder.Render(lines) + CRLF + rest, k + 2, CRLF) ==> k >= |HeaderOrder.Render(lines)| - 2
  {
    var line, tail := lines[0], HeaderOrder.Render(lines[1..]) + CRLF + rest;
    var s := HeaderOrder.Render(lines) + CRLF + rest;
    assert s == line + CRLF + tail;
    AfterFirstLine(line, tail, k);
    if At(s, k + 2, CRLF) && |lines| > 1 {
      AfterFirstLine(line, tail, k + 2);
      TrailersEnd(lines[1..], rest, k - |line| - if k == |line| then 0 else 2);
    }
  }

  lemma TrailersAt(data: string, i: nat, trailers: seq<string>, rest: string)
    requires forall i :: 0 <= i < |trailers| ==> trailers[i] != "" && HeaderOrder.Unbroken(trailers[i])
    requires |HeaderOrder.Render(trailers)| + 2 <= MAX_HEADER
    requires i <= |data| && data[i..] == HeaderOrder.Render(trailers) + CRLF + rest
    ensures TrailerEnd(data, i) == End(i + |HeaderOrder.Render(trailers)| + 2)
  {
    var block := HeaderOrder.Render(trailers) + CRLF;
    AtDrop(data, i, CRLF);
    if trailers == [] {
      assert At(data[i..], 0, CRLF);
    } else {
      HeaderOrder.RenderEnds(trailers);
      var e := i + |block| - 4;
      assert At(data, e, END) by {
        assert data[e..e + 4] == data[i..][|block| - 4..|block|] == block[|block| - 4..];
      }
      forall k | i <= k && At(data, k, END)
        ensures k >= e
      {
        EndIsTwo(data, k);
        TrailersEnd(trailers, rest, k - i);
      }
      assert !At(data, i, CRLF) by {
        if At(data, i, CRLF) {
          TrailersEnd(trailers, rest, 0);
        }
      }
    }
  }

  /** A chunk with `n` bytes of data lies at `i` and runs to `next`. */
  ghost predicate ChunkLies(data: string, i: nat, n: nat, next: nat, size: Sizer) {
    && i <= |data| && 0 < n
    && var j := FindFrom(data, i, CRLF);
    && 0 <= j && j + 2 - i <= MAX_HEADER && size(data[i..j]) == Some(n)
    && next == j + 2 + n + 2 <= |data| && data[next - 2] == '\r' && data[next - 1] == '\n'
  }

  lemma PastChunk(data: string, i: nat, n: nat, next: nat, size: Sizer)
    requires ChunkLies(data, i, n, next, size)
    ensures BodyEnd(data, i, size) == BodyEnd(data, next, size)
  {
  }

  lemma Regroup(a: string, b: string, c: string, d: string, e: string)
    ensures a + b + (c + d) + e == a + b + (c + d + e)
  {
  }

  lemma Associate(a: string, b: string, c: string)
    ensures (a + b) + c == a + (b + c)
  {
  }

  /** The data of a chunk, its CRLF, and what follows. */
  lemma DataAt(data: string, j: nat, d: string, rest: string)
    requires j <= |data| && data[j..] == d + CRLF + rest
    ensures var e := j + |d|; e + 2 <= |data| && data[e] == '\r' && data[e + 1] == '\n' && data[e + 2..] == rest
  {
    var tail := data[j..];
    assert data[j + |d|] == tail[|d|] && data[j + |d| + 1] == tail[|d| + 1];
    assert data[j + |d| + 2..] == tail[|d| + 2..];
  }

  /** Where the parts of an encoded chunk lie. */
  lemma ChunkLineAt(data: string, i: nat, c: Chunk, rest: string)
    requires HeaderOrder.Unbroken(c.line)
    requires i <= |data| && data[i..] == EncodeChunk(c) + rest
    ensures var j := FindFrom(data, i, CRLF);
            && j == i + |c.line| && j + 2 <= |data| && data[i..j] == c.line
            && var e := j + 2 + |c.data|;
            && e + 2 <= |data| && data[e] == '\r' && data[e + 1] == '\n' && data[e + 2..] == rest
            && e + 2 == i + |EncodeChunk(c)|
  {
    Regroup(c.line, CRLF, c.data, CRLF, rest);
    LineAt(data, i, c.line, c.data + CRLF + rest);
    DataAt(data, i + |c.line| + 2, c.data, rest);
  }

  lemma ChunkAt(data: string, i: nat, c: Chunk, rest: string, size: Sizer)
    requires c.data != "" && SizeLineFor(c.line, |c.data|, size)
    requires i <= |data| && data[i..] == EncodeChunk(c) + rest
    ensures var next := i + |EncodeChunk(c)|;
            ChunkLies(data, i, |c.data|, next, size) && data[next..] == rest
  {
    ChunkLineAt(data, i, c, rest);
  }

  lemma PastLast(data: string, i: nat, size: Sizer)
    requires i <= |data|
    requires var j := FindFrom(data, i, CRLF); 0 <= j && j + 2 - i <= MAX_HEADER && size(data[i..j]) == Some(0)
    ensures BodyEnd(data, i, size) == TrailerEnd(data, FindFrom(data, i, CRLF) + 2)
  {
  }

  lemma LastAt(data: string, i: nat, last: string, trailers: seq<string>, rest: string, size: Sizer)
    requires WellFormed([], last, trailers, size)
    requires i <= |data| && data[i..] == EncodeLast(last, trailers) + rest
    ensures BodyEnd(data, i, size) == End(i + |EncodeLast(last, trailers)|)
  {
    Regroup(last, CRLF, HeaderOrder.Render(trailers), CRLF, rest);
    LineAt(data, i, last, HeaderOrder.Render(trailers) + CRLF + rest);
    PastLast(data, i, size);
    TrailersAt(data, i + |last| + 2, trailers, rest);
  }

  /** A reader that gets past every chunk gets past all of them. */
  lemma {:induction false} PastChunks(data: string, i: nat, chunks: seq<Chunk>, last: string, trailers: seq<string>, rest: string,
                                      size: Sizer, end: nat -> Parse) returns (n: nat)
    requires WellFormed(chunks, last, trailers, size)
    requires i <= |data| && data[i..] == EncodeBody(chunks, last, trailers) + rest
    requires forall k: nat, n: nat, next: nat {:trigger ChunkLies(data, k, n, next, size)} ::
               ChunkLies(data, k, n, next, size) ==> end(k) == end(next)
    ensures n + |EncodeLast(last, trailers)| == |EncodeBody(chunks, last, trailers)|
    ensures i + n <= |data| && data[i + n..] == EncodeLast(last, trailers) + rest && end(i) == end(i + n)
    ensures WellFormed([], last, trailers, size)
    decreases |chunks|
  {
    if chunks == [] {
      n := 0;
    } else {
      var one, more := EncodeChunk(chunks[0]), EncodeBody(chunks[1..], last, trailers);
      Associate(one, more, rest);
      ChunkAt(data, i, chunks[0], more + rest, size);
      n := PastChunks(data, i + |one|, chunks[1..], last, trailers, rest, size, end);
      n := |one| + n;
    }
  }

  /** The reader's verdict from each place in the data. */
  function Reader(data: string, size: Sizer): nat -> Parse {
    (k: nat) => if k <= |data| then BodyEnd(data, k, size) else Partial
  }

  lemma ReaderPasses(data: string, size: Sizer)
    ensures forall k: nat, n: nat, next: nat {:trigger ChunkLies(data, k, n, next, size)} ::
              ChunkLies(data, k, n, next, size) ==> Reader(data, size)(k) == Reader(data, size)(next)
  {
    forall k: nat, n: nat, next: nat | ChunkLies(data, k, n, next, size)
      ensures Reader(data, size)(k) == Reader(data, size)(next)
    {
      PastChunk(data, k, n, next, size);
    }
  }

  lemma ReaderLast(data: string, last: string, trailers: seq<string>, rest: string, size: Sizer)
    requires WellFormed([], last, trailers, size)
    ensures forall i: nat {:trigger Reader(data, size)(i)} :: i <= |data| && data[i..] == EncodeLast(last, trailers) + rest ==>
              Reader(data, size)(i) == End(i + |EncodeLast(last, trailers)|)
  {
    forall i: nat | i <= |data| && data[i..] == EncodeLast(last, trailers) + rest
      ensures Reader(data, size)(i) == End(i + |EncodeLast(last, trailers)|)
    {
      LastAt(data, i, last, trailers, rest, size);
    }
  }

  lemma EncodedEnds(data: string, chunks: seq<Chunk>, last: string, trailers: seq<string>, rest: string, size: Sizer)
    requires WellFormed(chunks, last, trailers, size)
    requires data == EncodeBody(chunks, last, trailers) + rest
    ensures Reader(data, size)(0) == End(|EncodeBody(chunks, last, trailers)|)
  {
    assert data[0..] == data;
    ReaderPasses(data, size);
    var n := PastChunks(data, 0, chunks, last, trailers, rest, size, Reader(data, size));
    ReaderLast(data, last, trailers, rest, size);
  }

  /** The tracker stops exactly at the end of an encoded body, whatever follows it. */
  lemma TrackerStopsAtTheEnd(chunks: seq<Chunk>, last: string, trailers: seq<string>, rest: string)
    requires WellFormed(chunks, last, trailers, SizeOf)
    ensures var body := EncodeBody(chunks, last, trailers);
            var o := Scan(NEW, Step, body + rest, 0);
            o.status == Complete && o.used == |body|
  {
    var body := EncodeBody(chunks, last, trailers);
    EncodedEnds(body + rest, chunks, last, trailers, rest, SizeOf);
    TrackerIsReader(body + rest);
  }

  /** A size printed in hexadecimal, with or without an extension, reads back as itself. */
  lemma PrintedSize(n: nat, extension: string)
    requires n <= MAX_INT64
    ensures SizeOf(Digits(n, 16)) == Some(n)
    ensures SizeOf(Digits(n, 16) + ";" + extension) == Some(n)
  {
    var digits := Digits(n, 16);
    ParsePrinted(n, 16);
    TrimNothing(digits);
    assert ';' !in digits;
    var kept := TrimKeeps(digits + ";", extension);
    var text := digits + ";" + kept;
    assert digits + ";" + extension == (digits + ";") + extension;
    assert TrimLeft(digits + ";" + extension) == digits + ";" + extension;
    assert TrimSpace(digits + ";" + extension) == text;
    var semi := IndexByte(text, ';');
    assert text[|digits|] == ';';
    assert semi == |digits| by {
      assert text[..|digits|] == digits;
    }
    assert text[..semi] == digits;
  }

  /** Trimming on the right stops at the first character that is no space. */
  lemma {:induction false} TrimKeeps(front: string, tail: string) returns (kept: string)
    requires front != "" && !IsSpace(front[|front| - 1])
    ensures TrimRight(front + tail) == front + kept
  {
    if tail == "" {
      assert front + tail == front;
      kept := "";
    } else if IsSpace(tail[|tail| - 1]) {
      assert (front + tail)[..|front + tail| - 1] == front + tail[..|tail| - 1];
      kept := TrimKeeps(front, tail[..|tail| - 1]);
    } else {
      kept := tail;
    }
  }
}

/**
 * Following one chunked request body (section 7.1 of RFC 9112) through writes that
 * may be split anywhere, without touching its bytes.
 */
module ChunkedTracker {
  import opened Scanner
  import opened Wrappers
  import opened Text

  const MAX_HEADER: nat := 0x10_0000
  const END: string := "\r\n\r\n"

  datatype Phase = Size | Data | DataCRLF | Trailers

  datatype State = State(phase: Phase, line: string, remaining: nat, crlf: nat, trailers: string)

  const NEW: State := State(Size, "", 0, 0, "")

  predicate Valid(t: State) {
    && (t.phase.Data? ==> 0 < t.remaining)
    && (t.phase.DataCRLF? ==> t.crlf < 2)
  }

  predicate EndsWith(s: string, tail: string) {
    At(s, |s| - |tail|, tail)
  }

  /** The chunk size on a size line (without its CRLF), extensions dropped. */
  function SizeOf(line: string): Option<nat> {
    var text := TrimSpace(line);
    var semi := IndexByte(text, ';');
    match ParseInt(if semi < 0 then text else TrimSpace(text[..semi]), 16)
    case Some(n) => if n < 0 then None else Some(n)
    case None => None
  }

  /** How a size line gives a size; the code's reading is `SizeOf`. */
  type Sizer = string -> Option<nat>

  /** The tracker after a size line that read as `size`. */
  function AfterSize(t: State, line: string, size: Option<nat>): Next<State> {
    match size
    case None => Bad(t.(line := line), true)
    case Some(n) =>
      if n == 0 then Go(t.(phase := Trailers, line := ""))
      else Go(t.(phase := Data, line := "", remaining := n))
  }

  function StepWith(size: Sizer, t: State, b: char): (r: Next<State>)
    ensures Valid(t) ==> Valid(r.t)
  {
    match t.phase
    case Size =>
      var line := t.line + [b];
      if |line| > MAX_HEADER then Bad(t.(line := line), true)
      else if !EndsWith(line, CRLF) then Go(t.(line := line))
      else AfterSize(t, line, size(line[..|line| - 2]))
    case Data =>
      if t.remaining > 1 then Go(t.(remaining := t.remaining - 1))
      else Go(t.(remaining := 0, crlf := 0, phase := DataCRLF))
    case DataCRLF =>
      if t.crlf >= 2 || b != CRLF[t.crlf] then Bad(t, false)
      else if t.crlf == 1 then Go(t.(crlf := 2, phase := Size))
      else Go(t.(crlf := 1))
    case Trailers =>
      var u := t.(trailers := t.trailers + [b]);
      if |u.trailers| > MAX_HEADER then Bad(u, true)
      else if u.trailers == CRLF || EndsWith(u.trailers, END) then Done(u)
      else Go(u)
  }

  function Step(t: State, b: char): (r: Next<State>)
    ensures Valid(t) ==> Valid(r.t)
  {
    StepWith(SizeOf, t, b)
  }

  /** The tracker `n` bytes of chunk data later. */
  function AfterData(t: State, n: nat): State
    requires n <= t.remaining
  {
    if n < t.remaining then t.(remaining := t.remaining - n) else t.(remaining := 0, crlf := 0, phase := DataCRLF)
  }

  /** A run of chunk data takes the same effect at once as byte by byte. */
  lemma {:induction false} DataRun(t: State, data: string, i: nat, n: nat)
    requires Valid(t) && t.phase.Data? && i + n <= |data| && n <= t.remaining
    ensures Scan(t, Step, data, i)
         == Scan(AfterData(t, n), Step, data, i + n)
    decreases n
  {
    if n > 0 {
      if t.remaining == 1 {
        assert n == 1;
      } else {
        DataRun(t.(remaining := t.remaining - 1), data, i + 1, n - 1);
      }
    }
  }

  lemma {:induction false} ScanValid(t: State, data: string, i: nat)
    requires Valid(t) && i <= |data|
    ensures Valid(Scan(t, Step, data, i).t)
    decreases |data| - i
  {
    if i < |data| && Step(t, data[i]).Go? {
      ScanValid(Step(t, data[i]).t, data, i + 1);
    }
  }

  method ParseSize(line: string) returns (size: Option<nat>)
    ensures size == SizeOf(line)
  {
    var sizeText := TrimSpace(line);
    var extension := IndexByte(sizeText, ';');
    if extension >= 0 {
      sizeText := TrimSpace(sizeText[..extension]);
    }
    var parsed := ParseInt(sizeText, 16);
    if parsed.None? || parsed.value < 0 {
      return None;
    }
    return Some(parsed.value);
  }

  class Tracker {
    var state: Phase
    var line: string
    var dataRemaining: nat
    var crlfPosition: nat
    var trailers: string

    ghost function Now(): State
      reads this
    {
      State(state, line, dataRemaining, crlfPosition, trailers)
    }

    constructor ()
      ensures Now() == NEW
    {
      state, line, dataRemaining, crlfPosition, trailers := Size, "", 0, 0, "";
    }

    constructor Copy(from: Tracker)
      ensures Now() == from.Now()
    {
      state, line, dataRemaining := from.state, from.line, from.dataRemaining;
      crlfPosition, trailers := from.crlfPosition, from.trailers;
    }

    method Clone() returns (copy: Tracker)
      ensures fresh(copy) && copy.Now() == Now()
    {
      copy := new Tracker.Copy(this);
    }

    method ReadSizeByte(b: char) returns (failed: bool)
      requires Valid(Now()) && state == Size
      modifies this
      ensures (if failed then Bad(Now(), true) else Go(Now())) == Step(old(Now()), b)
    {
      line := line + [b];
      if |line| > MAX_HEADER {
        return true;
      }
      if |line| < 2 || line[|line| - 2..] != CRLF {
        return false;
      }
      var size := ParseSize(line[..|line| - 2]);
      if size.None? {
        return true;
      }
      line := "";
      if size.value == 0 {
        state := Trailers;
        return false;
      }
      dataRemaining := size.value;
      state := Data;
      return false;
    }

    method ReadTrailerByte(b: char) returns (status: Status)
      requires Valid(Now()) && state == Trailers
      modifies this
      ensures Step(old(Now()), b)
           == match status case Going => Go(Now()) case Complete => Done(Now()) case Failed => Bad(Now(), true)
    {
      trailers := trailers + [b];
      if |trailers| > MAX_HEADER {
        return Failed;
      }
      if trailers == CRLF || (|trailers| >= 4 && trailers[|trailers| - 4..] == END) {
        return Complete;
      }
      return Going;
    }

    method ReadData(available: nat) returns (n: nat)
      requires Valid(Now()) && state == Data && available > 0
      modifies this
      ensures 0 < n <= available && n <= old(dataRemaining) && Now() == AfterData(old(Now()), n)
    {
      n := if available < dataRemaining then available else dataRemaining;
      dataRemaining := dataRemaining - n;
      if dataRemaining == 0 {
        crlfPosition := 0;
        state := DataCRLF;
      }
    }

    method ReadCrlfByte(b: char) returns (failed: bool)
      requires Valid(Now()) && state == DataCRLF
      modifies this
      ensures (if failed then Bad(Now(), false) else Go(Now())) == Step(old(Now()), b)
    {
      if b != CRLF[crlfPosition] {
        return true;
      }
      crlfPosition := crlfPosition + 1;
      if crlfPosition == 2 {
        state := Size;
      }
      return false;
    }

    method Consume(data: string) returns (consumed: nat, completed: bool, failed: bool)
      requires Valid(Now())
      modifies this
      ensures var o := Scan(old(Now()), Step, data, 0);
              && Now() == o.t && consumed == o.used
              && completed == (o.status == Complete) && failed == (o.status == Failed)
    {
      consumed := 0;
      while consumed < |data|
        invariant consumed <= |data| && Valid(Now())
        invariant Scan(Now(), Step, data, consumed) == Scan(old(Now()), Step, data, 0)
      {
        match state
        case Size =>
          var bad := ReadSizeByte(data[consumed]);
          consumed := consumed + 1;
          if bad {
            return consumed, false, true;
          }
        case Data =>
          ghost var before := Now();
          var chunkBytes := ReadData(|data| - consumed);
          DataRun(before, data, consumed, chunkBytes);
          consumed := consumed + chunkBytes;
        case DataCRLF =>
          var bad := ReadCrlfByte(data[consumed]);
          if bad {
            return consumed, false, true;
          }
          consumed := consumed + 1;
        case Trailers =>
          var status := ReadTrailerByte(data[consumed]);
          consumed := consumed + 1;
          if status != Going {
            return consumed, status == Complete, status == Failed;
          }
      }
      return consumed, false, false;
    }
  }
}

/**
 * Printing and reading the Redis serialization protocol ("Arrays" and "Bulk
 * strings"): the server's reader and printers, and those of the certificate client.
 * What is printed reads back as itself, whatever bytes it has, and reading stops at
 * its end.
 */
module RespCodec {
  import opened Text
  import opened Wrappers

  datatype Error = EndOfStream | Protocol | NilValue | Refused(message: string)

  /** A value and what is left of the stream. */
  datatype Parsed<T> = Parsed(value: T, rest: string)

  // ------------------------------------------------------------------ reading

  /** Up to the next line feed, without it and a carriage return in front of it. */
  function Line(s: string): Result<Parsed<string>, Error> {
    var i := IndexByte(s, '\n');
    if i < 0 then Err(EndOfStream)
    else
      var line := s[..i];
      Ok(Parsed(if line != "" && line[|line| - 1] == '\r' then line[..|line| - 1] else line, s[i + 1..]))
  }

  function Bulk(s: string): Result<Parsed<string>, Error> {
    match Line(s)
    case Err(e) => Err(e)
    case Ok(p) => Sized(ParseInt(p.value, 10), p.rest)
  }

  /** A bulk string once its size has been read. */
  function Sized(size: Option<int>, s: string): Result<Parsed<string>, Error> {
    match size
    case None => Err(Protocol)
    case Some(length) =>
      if length < 0 then Ok(Parsed("", s))
      else if length + 2 > |s| then Err(EndOfStream)
      else if s[length] != '\r' || s[length + 1] != '\n' then Err(Protocol)
      else Ok(Parsed(s[..length], s[length + 2..]))
  }

  function Value(s: string): Result<Parsed<string>, Error> {
    if s == "" then Err(EndOfStream)
    else if s[0] == '$' then Bulk(s[1..])
    else if s[0] == '+' || s[0] == ':' then Line(s[1..])
    else Err(Protocol)
  }

  function Values(s: string, count: nat): Result<Parsed<seq<string>>, Error> {
    if count == 0 then Ok(Parsed([], s))
    else
      match Value(s)
      case Err(e) => Err(e)
      case Ok(p) =>
        match Values(p.rest, count - 1)
        case Err(e) => Err(e)
        case Ok(q) => Ok(Parsed([p.value] + q.value, q.rest))
  }

  function Array(s: string): Result<Parsed<seq<string>>, Error> {
    if s == "" then Err(EndOfStream)
    else if s[0] != '*' then Err(Protocol)
    else
      match Line(s[1..])
      case Err(e) => Err(e)
      case Ok(p) =>
        match ParseInt(p.value, 10)
        case None => Err(Protocol)
        case Some(count) => if count < 0 then Err(Protocol) else Values(p.rest, count)
  }

  /** The certificate client's reader: it trims the size, does not look at the final CRLF, and refuses nil. */
  function CertificateBulk(s: string): Result<Parsed<string>, Error> {
    if s == "" then Err(EndOfStream)
    else
      var i := IndexByte(s[1..], '\n');
      if s[0] != '$' && s[0] != '-' then Err(Protocol)
      else if i < 0 then Err(EndOfStream)
      else if s[0] == '-' then Err(Refused(TrimSpace(s[1..][..i + 1])))
      else
        CertificateSized(ParseInt(TrimSpace(s[1..][..i + 1]), 10), s[1..][i + 1..])
  }

  function CertificateSized(size: Option<int>, s: string): Result<Parsed<string>, Error> {
    match size
    case None => Err(Protocol)
    case Some(length) =>
      if length < 0 then Err(NilValue)
      else if length + 2 > |s| then Err(EndOfStream)
      else Ok(Parsed(s[..length], s[length + 2..]))
  }

  // ----------------------------------------------------------------- printing

  function PrintedBulk(payload: Option<string>): string {
    match payload
    case None => "$-1" + CRLF
    case Some(bytes) => "$" + (Digits(|bytes|, 10) + CRLF + (bytes + CRLF))
  }

  function PrintedItems(items: seq<Option<string>>): string {
    if items == [] then "" else PrintedBulk(items[0]) + PrintedItems(items[1..])
  }

  function PrintedArray(items: seq<Option<string>>): string {
    "*" + (Digits(|items|, 10) + CRLF + PrintedItems(items))
  }

  /** What a printed item reads as: nil is not told from the empty string. */
  function ReadAs(items: seq<Option<string>>): seq<string> {
    seq(|items|, i requires 0 <= i < |items| => if items[i].Some? then items[i].value else "")
  }

  // ------------------------------------------------------------- main results

  lemma {:induction false} FirstAt(s: string, c: char, k: nat)
    requires k < |s| && s[k] == c && forall i :: 0 <= i < k ==> s[i] != c
    ensures IndexByte(s, c) == k
  {
    if k > 0 {
      FirstAt(s[1..], c, k - 1);
    }
  }

  predicate NoBreaks(line: string) {
    forall i :: 0 <= i < |line| ==> line[i] != '\r' && line[i] != '\n' && !IsSpace(line[i])
  }

  /** Where a line ends that is followed by CRLF. */
  lemma LineEnds(line: string, rest: string)
    requires NoBreaks(line)
    ensures var s := line + CRLF + rest;
            && IndexByte(s, '\n') == |line| + 1 && s[..|line| + 1] == line + "\r" && s[..|line| + 2] == line + CRLF && s[|line| + 2..] == rest
  {
    var s := line + CRLF + rest;
    assert s[|line|] == '\r' && s[|line| + 1] == '\n';
    forall k | 0 <= k < |line|
      ensures s[k] == line[k]
    {
    }
    FirstAt(s, '\n', |line| + 1);
  }

  lemma LineReads(line: string, rest: string)
    requires NoBreaks(line)
    ensures Line(line + CRLF + rest) == Ok(Parsed(line, rest))
  {
    LineEnds(line, rest);
    assert (line + "\r")[..|line|] == line;
  }

  lemma Regroup(a: string, b: string, c: string)
    ensures a + b + c == a + (b + c)
  {
  }

  lemma AfterMark(mark: string, digits: string, body: string, rest: string)
    requires |mark| == 1
    ensures var s := mark + (digits + CRLF + body) + rest; s[0] == mark[0] && s[1..] == digits + CRLF + (body + rest)
  {
  }

  lemma DigitsRead(n: nat)
    requires n <= MAX_INT64
    ensures NoBreaks(Digits(n, 10)) && ParseInt(Digits(n, 10), 10) == Some(n)
  {
    ParsePrinted(n, 10);
  }

  /** The digits of the size, and what follows them. */
  lemma SizeThenData(bytes: string, rest: string)
    requires |bytes| <= MAX_INT64
    ensures var s, tail := PrintedBulk(Some(bytes)) + rest, bytes + CRLF + rest;
            && s[0] == '$' && s[1..] == Digits(|bytes|, 10) + CRLF + tail
            && NoBreaks(Digits(|bytes|, 10)) && ParseInt(Digits(|bytes|, 10), 10) == Some(|bytes|)
  {
    DigitsRead(|bytes|);
    AfterMark("$", Digits(|bytes|, 10), bytes + CRLF, rest);
  }

  lemma DataFollows(bytes: string, rest: string)
    ensures var tail := bytes + CRLF + rest;
            && |bytes| + 2 <= |tail| && tail[|bytes|] == '\r' && tail[|bytes| + 1] == '\n'
            && tail[..|bytes|] == bytes && tail[|bytes| + 2..] == rest
  {
  }

  lemma BulkReads(payload: Option<string>, rest: string)
    requires payload.Some? ==> |payload.value| <= MAX_INT64
    ensures Value(PrintedBulk(payload) + rest) == Ok(Parsed(if payload.Some? then payload.value else "", rest))
  {
    match payload
    case None =>
      NilReads(rest);
    case Some(bytes) =>
      SizeThenData(bytes, rest);
      LineReads(Digits(|bytes|, 10), bytes + CRLF + rest);
      DataFollows(bytes, rest);
      SizedReads(bytes, bytes + CRLF + rest, rest);
  }

  lemma SizedReads(bytes: string, tail: string, rest: string)
    requires |bytes| + 2 <= |tail| && tail[|bytes|] == '\r' && tail[|bytes| + 1] == '\n'
    requires tail[..|bytes|] == bytes && tail[|bytes| + 2..] == rest
    ensures Sized(Some(|bytes|), tail) == Ok(Parsed(bytes, rest))
  {
  }

  lemma NilSize(rest: string)
    ensures var s := PrintedBulk(None) + rest;
            s[0] == '$' && s[1..] == "-1" + CRLF + rest && NoBreaks("-1") && ParseInt("-1", 10) == Some(-1)
  {
    MinusOne();
  }

  lemma NilReads(rest: string)
    ensures Value(PrintedBulk(None) + rest) == Ok(Parsed("", rest))
  {
    NilSize(rest);
    LineReads("-1", rest);
  }

  lemma MinusOne()
    ensures ParseInt("-1", 10) == Some(-1)
  {
    assert "-1"[1..] == "1";
    ValueOfSnoc("", '1', 10);
    assert "" + "1" == "1";
    assert ValueOf("1", 10) == 1;
  }

  lemma ValuesStep(s: string, count: nat, v: string, mid: string, vs: seq<string>, rest: string)
    requires count > 0 && Value(s) == Ok(Parsed(v, mid)) && Values(mid, count - 1) == Ok(Parsed(vs, rest))
    ensures Values(s, count) == Ok(Parsed([v] + vs, rest))
  {
  }

  lemma ReadAsStep(items: seq<Option<string>>)
    requires items != []
    ensures ReadAs(items) == [if items[0].Some? then items[0].value else ""] + ReadAs(items[1..])
  {
  }

  lemma {:induction false} ItemsRead(items: seq<Option<string>>, rest: string)
    requires forall i :: 0 <= i < |items| && items[i].Some? ==> |items[i].value| <= MAX_INT64
    ensures Values(PrintedItems(items) + rest, |items|) == Ok(Parsed(ReadAs(items), rest))
  {
    if items == [] {
      assert PrintedItems(items) + rest == rest && ReadAs(items) == [];
    } else {
      var one, more := PrintedBulk(items[0]), PrintedItems(items[1..]);
      var v := if items[0].Some? then items[0].value else "";
      Regroup(one, more, rest);
      BulkReads(items[0], more + rest);
      ItemsRead(items[1..], rest);
      ValuesStep(PrintedItems(items) + rest, |items|, v, more + rest, ReadAs(items[1..]), rest);
      ReadAsStep(items);
    }
  }

  lemma CountThenItems(items: seq<Option<string>>, rest: string)
    requires |items| <= MAX_INT64
    ensures var s := PrintedArray(items) + rest;
            && s[0] == '*' && s[1..] == Digits(|items|, 10) + CRLF + (PrintedItems(items) + rest)
            && NoBreaks(Digits(|items|, 10)) && ParseInt(Digits(|items|, 10), 10) == Some(|items|)
  {
    DigitsRead(|items|);
    AfterMark("*", Digits(|items|, 10), PrintedItems(items), rest);
  }

  /**
   * A printed array reads back as its strings, with any bytes in them, and reading
   * leaves the rest of the stream as it was.
   */
  lemma ArrayReads(items: seq<Option<string>>, rest: string)
    requires |items| <= MAX_INT64
    requires forall i :: 0 <= i < |items| && items[i].Some? ==> |items[i].value| <= MAX_INT64
    ensures Array(PrintedArray(items) + rest) == Ok(Parsed(ReadAs(items), rest))
  {
    CountThenItems(items, rest);
    LineReads(Digits(|items|, 10), PrintedItems(items) + rest);
    ItemsRead(items, rest);
  }

  /** The certificate client reads a printed bulk string too, but takes nil for an error. */
  lemma CertificateReads(payload: Option<string>, rest: string)
    requires payload.Some? ==> |payload.value| <= MAX_INT64
    ensures CertificateBulk(PrintedBulk(payload) + rest)
         == match payload
            case Some(bytes) => Ok(Parsed(bytes, rest))
            case None => Err(NilValue)
  {
    if payload.Some? {
      assert payload == Some(payload.value);
      CertificateReadsBytes(payload.value, rest);
    } else {
      assert payload == None;
      CertificateReadsNil(rest);
    }
  }

  lemma CertificateReadsBytes(bytes: string, rest: string)
    requires |bytes| <= MAX_INT64
    ensures CertificateBulk(PrintedBulk(Some(bytes)) + rest) == Ok(Parsed(bytes, rest))
  {
    SizeThenData(bytes, rest);
    SizeReads(Digits(|bytes|, 10), bytes + CRLF + rest);
    DataFollows(bytes, rest);
    CertificateSizedReads(bytes, bytes + CRLF + rest, rest);
  }

  lemma CertificateSizedReads(bytes: string, tail: string, rest: string)
    requires |bytes| + 2 <= |tail| && tail[..|bytes|] == bytes && tail[|bytes| + 2..] == rest
    ensures CertificateSized(Some(|bytes|), tail) == Ok(Parsed(bytes, rest))
  {
  }

  lemma CertificateReadsNil(rest: string)
    ensures CertificateBulk(PrintedBulk(None) + rest) == Err(NilValue)
  {
    NilSize(rest);
    SizeReads("-1", rest);
  }

  lemma SizeReads(digits: string, tail: string)
    requires digits != "" && NoBreaks(digits)
    ensures var s := digits + CRLF + tail;
            var i := IndexByte(s, '\n');
            i == |digits| + 1 && TrimSpace(s[..i + 1]) == digits && s[i + 1..] == tail
  {
    LineEnds(digits, tail);
    var line := digits + CRLF;
    assert line[..|line| - 1] == digits + "\r" && (digits + "\r")[..|digits|] == digits;
    assert TrimLeft(line) == line;
    assert TrimRight(digits + "\r") == digits;
    assert TrimRight(line) == digits;
  }

  // --------------------------------------------------- the readers and printers

  /** A reader's answer and the stream it leaves are those of the grammar. */
  ghost predicate Answers<T>(r: Result<T, Error>, rest: string, p: Result<Parsed<T>, Error>) {
    match p
    case Ok(parsed) => r == Ok(parsed.value) && rest == parsed.rest
    case Err(e) => r == Err(e)
  }

  /** What is read when some values have been read before. */
  function Before(args: seq<string>, r: Result<Parsed<seq<string>>, Error>): Result<Parsed<seq<string>>, Error> {
    match r
    case Err(e) => Err(e)
    case Ok(q) => Ok(Parsed(args + q.value, q.rest))
  }

  lemma NothingBefore(r: Result<Parsed<seq<string>>, Error>)
    ensures Before([], r) == r
  {
    if r.Ok? {
      assert [] + r.value.value == r.value.value;
    }
  }

  lemma OneMore(args: seq<string>, s: string, count: nat)
    requires count > 0
    ensures Before(args, Values(s, count))
         == match Value(s)
            case Err(e) => Err(e)
            case Ok(p) => Before(args + [p.value], Values(p.rest, count - 1))
  {
    if Value(s).Ok? && Values(Value(s).value.rest, count - 1).Ok? {
      var v, q := Value(s).value.value, Values(Value(s).value.rest, count - 1).value.value;
      assert args + ([v] + q) == args + [v] + q;
    }
  }

  class Reader {
    var rest: string

    constructor (stream: string)
      ensures rest == stream
    {
      rest := stream;
    }

    method ReadByte() returns (r: Result<char, Error>)
      modifies this
      ensures if old(rest) == "" then r == Err(EndOfStream) && rest == "" else r == Ok(old(rest)[0]) && rest == old(rest)[1..]
    {
      if rest == "" {
        return Err(EndOfStream);
      }
      r := Ok(rest[0]);
      rest := rest[1..];
    }

    /** Up to and with the next line feed. */
    method ReadString() returns (r: Result<string, Error>)
      modifies this
      ensures var i := IndexByte(old(rest), '\n');
              if i < 0 then r == Err(EndOfStream) else r == Ok(old(rest)[..i + 1]) && rest == old(rest)[i + 1..]
    {
      var i := IndexByte(rest, '\n');
      if i < 0 {
        rest := "";
        return Err(EndOfStream);
      }
      r := Ok(rest[..i + 1]);
      rest := rest[i + 1..];
    }

    method ReadFull(n: nat) returns (r: Result<string, Error>)
      modifies this
      ensures if n > |old(rest)| then r == Err(EndOfStream) else r == Ok(old(rest)[..n]) && rest == old(rest)[n..]
    {
      if n > |rest| {
        rest := "";
        return Err(EndOfStream);
      }
      r := Ok(rest[..n]);
      rest := rest[n..];
    }

    method ReadLine() returns (r: Result<string, Error>)
      modifies this
      ensures Answers(r, rest, Line(old(rest)))
    {
      var read := ReadString();
      match read
      case Err(e) => return Err(e);
      case Ok(text) =>
        ghost var i := IndexByte(old(rest), '\n');
        assert text[..|text| - 1] == old(rest)[..i];
        var line := text[..|text| - 1];
        if line != "" && line[|line| - 1] == '\r' {
          line := line[..|line| - 1];
        }
        return Ok(line);
    }

    method ReadBulkString() returns (r: Result<string, Error>)
      modifies this
      ensures Answers(r, rest, Bulk(old(rest)))
    {
      var line := ReadLine();
      if line.Err? {
        return line;
      }
      r := ReadSized(ParseInt(line.value, 10));
    }

    method ReadSized(size: Option<int>) returns (r: Result<string, Error>)
      modifies this
      ensures Answers(r, rest, Sized(size, old(rest)))
    {
      if size.None? {
        return Err(Protocol);
      }
      var length := size.value;
      if length < 0 {
        return Ok("");
      }
      var buf := ReadFull(length + 2);
      if buf.Err? {
        return buf;
      }
      if buf.value[length] != '\r' || buf.value[length + 1] != '\n' {
        return Err(Protocol);
      }
      assert old(rest)[..length + 2][..length] == old(rest)[..length];
      return Ok(buf.value[..length]);
    }

    method ReadValue() returns (r: Result<string, Error>)
      modifies this
      ensures Answers(r, rest, Value(old(rest)))
    {
      var prefix := ReadByte();
      if prefix.Err? {
        return Err(prefix.error);
      }
      if prefix.value == '$' {
        r := ReadBulkString();
      } else if prefix.value == '+' || prefix.value == ':' {
        r := ReadLine();
      } else {
        r := Err(Protocol);
      }
    }

    method ReadValues(count: nat) returns (r: Result<seq<string>, Error>)
      modifies this
      ensures Answers(r, rest, Values(old(rest), count))
    {
      var args: seq<string> := [];
      ghost var start := rest;
      NothingBefore(Values(start, count));
      for i := 0 to count
        invariant Values(start, count) == Before(args, Values(rest, count - i))
      {
        ghost var was := rest;
        var value := ReadValue();
        OneMore(args, was, count - i);
        if value.Err? {
          return Err(value.error);
        }
        args := args + [value.value];
      }
      assert args + [] == args;
      return Ok(args);
    }

    method ReadArray() returns (r: Result<seq<string>, Error>)
      modifies this
      ensures Answers(r, rest, Array(old(rest)))
    {
      var prefix := ReadByte();
      if prefix.Err? {
        return Err(prefix.error);
      }
      if prefix.value != '*' {
        return Err(Protocol);
      }
      var line := ReadLine();
      if line.Err? {
        return Err(line.error);
      }
      var count := ParseInt(line.value, 10);
      if count.None? || count.value < 0 {
        return Err(Protocol);
      }
      r := ReadValues(count.value);
    }

    method ReadCertificateSized(size: Option<int>) returns (r: Result<string, Error>)
      modifies this
      ensures Answers(r, rest, CertificateSized(size, old(rest)))
    {
      if size.None? {
        return Err(Protocol);
      }
      var length := size.value;
      if length < 0 {
        return Err(NilValue);
      }
      var payload := ReadFull(length + 2);
      if payload.Err? {
        return payload;
      }
      assert old(rest)[..length + 2][..length] == old(rest)[..length];
      return Ok(payload.value[..length]);
    }

    method ReadCertificateBulk() returns (r: Result<string, Error>)
      modifies this
      ensures Answers(r, rest, CertificateBulk(old(rest)))
    {
      var prefix := ReadByte();
      if prefix.Err? {
        return Err(prefix.error);
      }
      if prefix.value == '$' {
        var line := ReadString();
        if line.Err? {
          return line;
        }
        r := ReadCertificateSized(ParseInt(TrimSpace(line.value), 10));
        return;
      } else if prefix.value == '-' {
        var line := ReadString();
        if line.Err? {
          return line;
        }
        return Err(Refused(TrimSpace(line.value)));
      }
      return Err(Protocol);
    }
  }

  class Writer {
    var out: string

    constructor ()
      ensures out == ""
    {
      out := "";
    }

    method WriteBulk(payload: Option<string>)
      modifies this
      ensures out == old(out) + PrintedBulk(payload)
    {
      match payload
      case None => out := out + ("$-1" + CRLF);
      case Some(bytes) =>
        out := out + ("$" + (Digits(|bytes|, 10) + CRLF + (bytes + CRLF)));
    }

    method WriteArray(items: seq<Option<string>>)
      modifies this
      ensures out == old(out) + PrintedArray(items)
    {
      var head := "*" + (Digits(|items|, 10) + CRLF);
      out := out + head;
      WriteItems(items);
      Regroup(old(out), head, PrintedItems(items));
      HeadAndItems(items);
    }

    method WriteItems(items: seq<Option<string>>)
      modifies this
      ensures out == old(out) + PrintedItems(items)
    {
      ghost var start := out;
      assert start + "" == start;
      for i := 0 to |items|
        invariant out == start + PrintedItems(items[..i])
      {
        PrintedSnoc(items[..i], items[i]);
        assert items[..i + 1] == items[..i] + [items[i]];
        Regroup(start, PrintedItems(items[..i]), PrintedBulk(items[i]));
        WriteBulk(items[i]);
      }
      assert items[..|items|] == items;
    }
  }

  lemma HeadAndItems(items: seq<Option<string>>)
    ensures "*" + (Digits(|items|, 10) + CRLF) + PrintedItems(items) == PrintedArray(items)
  {
    Regroup("*", Digits(|items|, 10) + CRLF, PrintedItems(items));
  }

  lemma {:induction false} PrintedSnoc(items: seq<Option<string>>, item: Option<string>)
    ensures PrintedItems(items + [item]) == PrintedItems(items) + PrintedBulk(item)
  {
    if items == [] {
      assert (items + [item])[1..] == [];
      assert PrintedBulk(item) + "" == "" + PrintedBulk(item);
    } else {
      PrintedSnoc(items[1..], item);
      assert (items + [item])[1..] == items[1..] + [item] && (items + [item])[0] == items[0];
      Regroup(PrintedBulk(items[0]), PrintedItems(items[1..]), PrintedBulk(item));
    }
  }

  function Somes(args: seq<string>): seq<Option<string>> {
    seq(|args|, i requires 0 <= i < |args| => Some(args[i]))
  }

  lemma SomesSnoc(args: seq<string>, i: nat)
    requires i < |args|
    ensures Somes(args[..i + 1]) == Somes(args[..i]) + [Some(args[i])]
  {
  }

  /** The certificate client's printer prints what the server's does. */
  method EncodeArray(args: seq<string>) returns (buf: string)
    ensures buf == PrintedArray(Somes(args))
  {
    var head := "*" + (Digits(|args|, 10) + CRLF);
    var body := "";
    for i := 0 to |args|
      invariant body == PrintedItems(Somes(args[..i]))
    {
      PrintedSnoc(Somes(args[..i]), Some(args[i]));
      SomesSnoc(args, i);
      body := body + ("$" + (Digits(|args[i]|, 10) + CRLF + (args[i] + CRLF)));
    }
    assert args[..|args|] == args;
    HeadAndItems(Somes(args));
    buf := head + body;
  }
}

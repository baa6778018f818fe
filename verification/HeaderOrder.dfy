/**
 * Reordering the header lines of one HTTP/1.1 request.  The reference is a stable
 * sort by the place of a line's name in the desired list, unlisted names last.
 */
module HeaderOrder {
  import opened StableOrder
  import opened Wrappers
  import opened Text

  type Line = string

  const END: string := "\r\n\r\n"

  /** Desired names for a request method and target. */
  type Order = (string, string) -> seq<string>

  predicate Named(line: Line, name: string) {
    var colon := IndexByte(line, ':');
    colon > 0 && EqualFold(line[..colon], name)
  }

  // ------------------------------------------------------- splitting and joining

  function SplitLines(s: string): (lines: seq<Line>)
    ensures lines != []
    decreases |s|
  {
    var i := Find(s, CRLF);
    if i < 0 then [s] else [s[..i]] + SplitLines(s[i + 2..])
  }

  /** Every line followed by CRLF. */
  function Render(lines: seq<Line>): string {
    if lines == [] then "" else lines[0] + CRLF + Render(lines[1..])
  }

  predicate Unbroken(line: Line) {
    Find(line, CRLF) == -1
  }

  function RequestParts(line: Line): Option<(string, string)> {
    var i := IndexByte(line, ' ');
    if i < 0 then None
    else
      var rest := line[i + 1..];
      var j := IndexByte(rest, ' ');
      if j < 0 then None else Some((line[..i], rest[..j]))
  }

  function ContentLength(lines: seq<Line>): nat {
    if lines == [] then 0
    else if !Named(lines[0], "Content-Length") then ContentLength(lines[1..])
    else
      var colon := IndexByte(lines[0], ':');
      match ParseInt(TrimSpace(lines[0][colon + 1..]), 10)
      case Some(n) => if n > 0 then n else 0
      case None => 0
  }

  /** strings.Split at commas. */
  function SplitCommas(s: string): seq<string>
    decreases |s|
  {
    var i := IndexByte(s, ',');
    if i < 0 then [s] else [s[..i]] + SplitCommas(s[i + 1..])
  }

  predicate ChunkedLine(line: Line) {
    && Named(line, "Transfer-Encoding")
    && var codings := SplitCommas(line[IndexByte(line, ':') + 1..]);
       exists i :: 0 <= i < |codings| && EqualFold(TrimSpace(codings[i]), "chunked")
  }

  predicate UsesChunked(lines: seq<Line>) {
    Any(lines, ChunkedLine)
  }

  /** The names the caller wants for this request line; none when it has not three parts. */
  function DesiredNames(requestLine: Line, order: Order): seq<string> {
    match RequestParts(requestLine)
    case Some(parts) => order(parts.0, parts.1)
    case None => []
  }

  datatype Ordered = Ordered(header: string, contentLength: nat, chunked: bool)

  /** What becomes of a complete header block. */
  function OrderedHeader(header: string, order: Order): Ordered
    requires |header| >= 4
  {
    var lines := SplitLines(header[..|header| - 4]);
    var names := DesiredNames(lines[0], order);
    Ordered(Render([lines[0]] + OrderLines(lines[1..], Named, names)) + CRLF, ContentLength(lines[1..]), UsesChunked(lines[1..]))
  }

  // ------------------------------------------------------------ the code's loops

  method RequestContentLength(lines: seq<Line>) returns (n: nat)
    ensures n == ContentLength(lines)
  {
    for i := 0 to |lines|
      invariant ContentLength(lines) == ContentLength(lines[i..])
    {
      if !Named(lines[i], "Content-Length") {
        continue;
      }
      var colon := IndexByte(lines[i], ':');
      var parsed := ParseInt(TrimSpace(lines[i][colon + 1..]), 10);
      if parsed.Some? && parsed.value > 0 {
        return parsed.value;
      }
      return 0;
    }
    return 0;
  }

  method RequestUsesChunked(lines: seq<Line>) returns (chunked: bool)
    ensures chunked == UsesChunked(lines)
  {
    for i := 0 to |lines|
      invariant forall k :: 0 <= k < i ==> !ChunkedLine(lines[k])
    {
      if !Named(lines[i], "Transfer-Encoding") {
        continue;
      }
      var codings := SplitCommas(lines[i][IndexByte(lines[i], ':') + 1..]);
      for j := 0 to |codings|
        invariant forall k :: 0 <= k < j ==> !EqualFold(TrimSpace(codings[k]), "chunked")
      {
        if EqualFold(TrimSpace(codings[j]), "chunked") {
          return true;
        }
      }
    }
    return false;
  }

  method WriteLines(lines: seq<Line>) returns (output: string)
    ensures output == Render(lines)
  {
    output := "";
    for i := 0 to |lines|
      invariant output == Render(lines[..i])
    {
      RenderSnoc(lines[..i], lines[i]);
      assert lines[..i + 1] == lines[..i] + [lines[i]];
      output := output + lines[i] + CRLF;
    }
    assert lines[..|lines|] == lines;
  }

  lemma HeaderUnchanged(header: string)
    requires |header| >= 4 && At(header, |header| - 4, END)
    ensures var lines := SplitLines(header[..|header| - 4]);
            Render([lines[0]] + OrderLines(lines[1..], Named, [])) + CRLF == header
  {
    var lines := SplitLines(header[..|header| - 4]);
    assert [lines[0]] + lines[1..] == lines;
    RenderSplit(header[..|header| - 4]);
    assert header == header[..|header| - 4] + header[|header| - 4..];
    assert END == CRLF + CRLF;
  }

  method OrderRequestHeader(header: string, order: Order) returns (r: Ordered)
    requires |header| >= 4 && At(header, |header| - 4, END)
    ensures r == OrderedHeader(header, order)
  {
    var lines := SplitLines(header[..|header| - 4]);
    var length := RequestContentLength(lines[1..]);
    var chunked := RequestUsesChunked(lines[1..]);
    HeaderUnchanged(header);
    var parts := RequestParts(lines[0]);
    if parts.None? {
      return Ordered(header, length, chunked);
    }
    var desired := order(parts.value.0, parts.value.1);
    if |desired| == 0 {
      return Ordered(header, length, chunked);
    }
    var ordered := ReorderLines(lines[1..], Named, desired);
    var output := WriteLines([lines[0]] + ordered);
    return Ordered(output + CRLF, length, chunked);
  }

  lemma {:induction false} RenderSnoc(lines: seq<Line>, l: Line)
    ensures Render(lines + [l]) == Render(lines) + l + CRLF
  {
    if lines == [] {
      assert (lines + [l])[1..] == [];
    } else {
      RenderSnoc(lines[1..], l);
      assert (lines + [l])[1..] == lines[1..] + [l];
    }
  }

  /** Splitting loses nothing. */
  lemma {:induction false} RenderSplit(s: string)
    ensures Render(SplitLines(s)) == s + CRLF
    decreases |s|
  {
    var i := Find(s, CRLF);
    if i < 0 {
      assert SplitLines(s)[1..] == [];
    } else {
      RenderSplit(s[i + 2..]);
      assert SplitLines(s)[0] == s[..i] && SplitLines(s)[1..] == SplitLines(s[i + 2..]);
      assert s == s[..i] + CRLF + s[i + 2..];
    }
  }

  // ------------------------------------------------------------- main results

  lemma {:induction false} RenderConcat(a: seq<Line>, b: seq<Line>)
    ensures Render(a + b) == Render(a) + Render(b)
  {
    if a == [] {
      assert a + b == b;
    } else {
      RenderConcat(a[1..], b);
      assert (a + b)[0] == a[0] && (a + b)[1..] == a[1..] + b;
    }
  }

  lemma {:induction false} PickLength(lines: seq<Line>, name: string)
    ensures |Render(Pick(lines, Named, name, true))| + |Render(Pick(lines, Named, name, false))| == |Render(lines)|
  {
    if lines != [] {
      PickLength(lines[1..], name);
      var named := Named(lines[0], name);
      assert Pick(lines, Named, name, named) == [lines[0]] + Pick(lines[1..], Named, name, named);
      assert Pick(lines, Named, name, !named) == Pick(lines[1..], Named, name, !named);
      RenderConcat([lines[0]], Pick(lines[1..], Named, name, named));
      RenderConcat([lines[0]], lines[1..]);
      assert lines == [lines[0]] + lines[1..];
    }
  }

  lemma {:induction false} OrderKeepsLength(lines: seq<Line>, names: seq<string>)
    ensures |Render(OrderLines(lines, Named, names))| == |Render(lines)|
    decreases |names|
  {
    if names != [] {
      PickLength(lines, names[0]);
      var rest := Pick(lines, Named, names[0], false);
      OrderKeepsLength(rest, names[1..]);
      RenderConcat(Pick(lines, Named, names[0], true), OrderLines(rest, Named, names[1..]));
    }
  }

  /** The first line of the name decides, so only the lines of that name matter. */
  lemma {:induction false} ContentLengthPick(lines: seq<Line>)
    ensures ContentLength(lines) == ContentLength(Pick(lines, Named, "Content-Length", true))
  {
    if lines != [] {
      ContentLengthPick(lines[1..]);
      if Named(lines[0], "Content-Length") {
        assert Pick(lines, Named, "Content-Length", true)[0] == lines[0];
      } else {
        assert Pick(lines, Named, "Content-Length", true) == Pick(lines[1..], Named, "Content-Length", true);
      }
    }
  }

  /** Header names are compared up to case, so lines of one name share all their names. */
  lemma NamesAgree(lines: seq<Line>, names: seq<string>, name: string)
    ensures Together(lines, Named, names, name)
  {
  }

  /** The framing of the body does not depend on the order of the header lines. */
  lemma OrderKeepsFraming(lines: seq<Line>, names: seq<string>)
    ensures ContentLength(OrderLines(lines, Named, names)) == ContentLength(lines)
    ensures UsesChunked(OrderLines(lines, Named, names)) == UsesChunked(lines)
  {
    NamesAgree(lines, names, "Content-Length");
    SameNameKeepsOrder(lines, Named, names, "Content-Length");
    ContentLengthPick(lines);
    ContentLengthPick(OrderLines(lines, Named, names));
    OrderIsPermutation(lines, Named, names);
    AnyOfPermutation(OrderLines(lines, Named, names), lines, ChunkedLine);
  }

  lemma {:induction false} SplitUnbroken(s: string)
    ensures forall i :: 0 <= i < |SplitLines(s)| ==> Unbroken(SplitLines(s)[i])
    decreases |s|
  {
    var i := Find(s, CRLF);
    if i >= 0 {
      SplitUnbroken(s[i + 2..]);
      forall j | 0 <= j <= i - 2
        ensures !At(s[..i], j, CRLF)
      {
        assert !At(s, j, CRLF);
        assert s[j..j + 2] == s[..i][j..j + 2];
      }
      assert Unbroken(s[..i]);
    }
  }

  /** A line without CRLF is found whole in front of its CRLF. */
  lemma FindLineEnd(line: Line, rest: string)
    requires Unbroken(line)
    ensures Find(line + CRLF + rest, CRLF) == |line|
  {
    var s := line + CRLF + rest;
    assert At(s, |line|, CRLF);
    forall i | 0 <= i < |line|
      ensures !At(s, i, CRLF)
    {
      assert !At(line, i, CRLF);
      if i + 1 < |line| {
        assert line[i..i + 2] == s[i..i + 2];
      } else {
        assert s[i..i + 2][1] == '\r';
      }
    }
  }

  lemma SplitFirst(line: Line, body: string)
    requires Unbroken(line)
    ensures SplitLines(line + CRLF + body) == [line] + SplitLines(body)
  {
    var s := line + CRLF + body;
    FindLineEnd(line, body);
    assert s[..|line|] == line;
    assert s[|line| + 2..] == body;
  }

  /** Splitting what was rendered gives the lines back. */
  lemma {:induction false} SplitRender(lines: seq<Line>)
    requires lines != [] && forall i :: 0 <= i < |lines| ==> Unbroken(lines[i])
    ensures |Render(lines)| >= 2 && SplitLines(Render(lines)[..|Render(lines)| - 2]) == lines
  {
    var tail := Render(lines[1..]);
    assert lines == [lines[0]] + lines[1..];
    if |lines| == 1 {
      assert tail == "";
      assert Render(lines)[..|Render(lines)| - 2] == lines[0];
    } else {
      SplitRender(lines[1..]);
      var body := tail[..|tail| - 2];
      assert Render(lines)[..|Render(lines)| - 2] == lines[0] + CRLF + body;
      SplitFirst(lines[0], body);
    }
  }

  lemma OrderUnbroken(lines: seq<Line>, names: seq<string>)
    requires forall i :: 0 <= i < |lines| ==> Unbroken(lines[i])
    ensures forall i :: 0 <= i < |OrderLines(lines, Named, names)| ==> Unbroken(OrderLines(lines, Named, names)[i])
  {
    var r := OrderLines(lines, Named, names);
    OrderIsPermutation(lines, Named, names);
    forall i | 0 <= i < |r|
      ensures Unbroken(r[i])
    {
      assert r[i] in multiset(lines);
    }
  }

  /** The lines of the reordered header are the reordered lines. */
  lemma OrderedLines(header: string, order: Order)
    requires |header| >= 4
    ensures var out := OrderedHeader(header, order).header;
            var lines := SplitLines(header[..|header| - 4]);
            |out| >= 4
            && SplitLines(out[..|out| - 4]) == [lines[0]] + OrderLines(lines[1..], Named, DesiredNames(lines[0], order))
  {
    var lines := SplitLines(header[..|header| - 4]);
    var out := OrderedHeader(header, order).header;
    var all := [lines[0]] + OrderLines(lines[1..], Named, DesiredNames(lines[0], order));
    SplitUnbroken(header[..|header| - 4]);
    OrderUnbroken(lines[1..], DesiredNames(lines[0], order));
    SplitRender(all);
    assert out[..|out| - 4] == Render(all)[..|Render(all)| - 2];
  }

  lemma OrderedKeepsShape(header: string, order: Order)
    requires |header| >= 4 && At(header, |header| - 4, END)
    ensures var out := OrderedHeader(header, order).header;
            |out| == |header| && At(out, |out| - 4, END)
  {
    var lines := SplitLines(header[..|header| - 4]);
    var body := OrderLines(lines[1..], Named, DesiredNames(lines[0], order));
    OrderKeepsLength(lines[1..], DesiredNames(lines[0], order));
    RenderConcat([lines[0]], body);
    RenderConcat([lines[0]], lines[1..]);
    HeaderUnchanged(header);
    RenderEnds([lines[0]] + body);
  }

  lemma RenderEnds(lines: seq<Line>)
    requires lines != []
    ensures At(Render(lines) + CRLF, |Render(lines)| - 2, END)
  {
    var n := |lines| - 1;
    RenderSnoc(lines[..n], lines[n]);
    assert lines == lines[..n] + [lines[n]];
  }

  /**
   * Reordering a header keeps its length, is idempotent, and leaves the framing of
   * the body as it was.
   */
  lemma ReorderedHeader(header: string, order: Order)
    requires |header| >= 4 && At(header, |header| - 4, END)
    ensures var out := OrderedHeader(header, order);
            && |out.header| == |header|
            && At(out.header, |out.header| - 4, END)
            && OrderedHeader(out.header, order) == out
  {
    var lines := SplitLines(header[..|header| - 4]);
    var names := DesiredNames(lines[0], order);
    var body := OrderLines(lines[1..], Named, names);
    OrderedKeepsShape(header, order);
    OrderedLines(header, order);
    assert ([lines[0]] + body)[0] == lines[0] && ([lines[0]] + body)[1..] == body;
    OrderIsIdempotent(lines[1..], Named, names);
    OrderKeepsFraming(lines[1..], names);
  }
}

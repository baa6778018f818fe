/**
 * What the lines of a request header say, told from the texts themselves: the length
 * in decimal, the codings, the method and the target; and where the header ends.
 */
module HeaderMeaning {
  import opened HeaderOrder
  import opened StableOrder
  import opened Text
  import opened TextLaws
  import opened Wrappers

  // ------------------------------------------------------ what header lines say

  /** A header line: its name, a colon, and the rest. */
  function LineOf(name: string, value: string): Line {
    name + ":" + value
  }

  lemma LineParts(name: string, value: string)
    requires ':' !in name
    ensures IndexByte(LineOf(name, value), ':') == |name|
    ensures LineOf(name, value)[..|name|] == name && LineOf(name, value)[|name| + 1..] == value
  {
    FirstByte(name, ':', value);
    assert LineOf(name, value) == name + [':'] + value;
  }

  /** A name without a colon, such as a name that equals one up to case. */
  lemma NameHasNoColon(name: string, wanted: string)
    requires EqualFold(name, wanted) && ':' !in wanted
    ensures |name| == |wanted| && ':' !in name
  {
    assert |Lower(name)| == |Lower(wanted)|;
    forall i | 0 <= i < |name|
      ensures name[i] != ':'
    {
      assert Lower(name)[i] == Lower(wanted)[i] == LowerChar(wanted[i]);
      assert wanted[i] in wanted;
    }
  }

  lemma LineNamed(name: string, value: string, wanted: string)
    requires EqualFold(name, wanted) && wanted != "" && ':' !in wanted
    ensures Named(LineOf(name, value), wanted) && name != "" && ':' !in name
  {
    NameHasNoColon(name, wanted);
    LineParts(name, value);
  }

  /**
   * The first line whose name is Content-Length, in any case, gives the length: its
   * value is a number in decimal, white space around it.  A number beyond 64 bits
   * counts as zero.
   */
  lemma {:induction false} LengthIsRead(before: seq<Line>, name: string, left: string, n: nat, right: string, after: seq<Line>)
    requires forall i :: 0 <= i < |before| ==> !Named(before[i], "Content-Length")
    requires EqualFold(name, "Content-Length") && Blank(left) && Blank(right)
    ensures ContentLength(before + [LineOf(name, left + Digits(n, 10) + right)] + after) == if n <= MAX_INT64 then n else 0
  {
    var value := left + Digits(n, 10) + right;
    var lines := before + [LineOf(name, value)] + after;
    if before == [] {
      assert lines[0] == LineOf(name, value);
      LineNamed(name, value, "Content-Length");
      LineParts(name, value);
      TrimAround(left, Digits(n, 10), right);
      if n <= MAX_INT64 {
        ParsePrinted(n, 10);
      } else {
        ParseLarge(n, 10);
      }
    } else {
      assert lines[0] == before[0] && lines[1..] == before[1..] + [LineOf(name, value)] + after;
      LengthIsRead(before[1..], name, left, n, right, after);
    }
  }

  /** A value with a character that is no decimal digit, but for a sign in front, counts as zero. */
  lemma {:induction false} LengthIsRefused(before: seq<Line>, name: string, value: string, after: seq<Line>, i: nat)
    requires forall i :: 0 <= i < |before| ==> !Named(before[i], "Content-Length")
    requires EqualFold(name, "Content-Length")
    requires TrimSpace(value) == "" || TrimSpace(value)[0] == '-' || (0 < i < |TrimSpace(value)| && !('0' <= TrimSpace(value)[i] <= '9'))
    ensures ContentLength(before + [LineOf(name, value)] + after) == 0
  {
    var lines := before + [LineOf(name, value)] + after;
    if before == [] {
      assert lines[0] == LineOf(name, value);
      LineNamed(name, value, "Content-Length");
      LineParts(name, value);
      NotPositive(TrimSpace(value), i);
    } else {
      assert lines[0] == before[0] && lines[1..] == before[1..] + [LineOf(name, value)] + after;
      LengthIsRefused(before[1..], name, value, after, i);
    }
  }

  lemma NotPositive(v: string, i: nat)
    requires v == "" || v[0] == '-' || (0 < i < |v| && !('0' <= v[i] <= '9'))
    ensures ParseInt(v, 10).Some? ==> ParseInt(v, 10).value <= 0
  {
    if v != "" && v[0] != '-' {
      var digits := if v[0] == '+' then v[1..] else v;
      assert digits[if v[0] == '+' then i - 1 else i] == v[i];
    }
  }

  lemma {:induction false} NoLength(lines: seq<Line>)
    requires forall i :: 0 <= i < |lines| ==> !Named(lines[i], "Content-Length")
    ensures ContentLength(lines) == 0
  {
    if lines != [] {
      NoLength(lines[1..]);
    }
  }

  function JoinCommas(codings: seq<string>): string
    requires codings != []
  {
    if |codings| == 1 then codings[0] else codings[0] + "," + JoinCommas(codings[1..])
  }

  lemma {:induction false} SplitJoined(codings: seq<string>)
    requires codings != [] && forall i :: 0 <= i < |codings| ==> ',' !in codings[i]
    ensures SplitCommas(JoinCommas(codings)) == codings
  {
    if |codings| > 1 {
      SplitJoined(codings[1..]);
      FirstByte(codings[0], ',', JoinCommas(codings[1..]));
      assert JoinCommas(codings) == codings[0] + [','] + JoinCommas(codings[1..]);
    } else {
      assert codings == [codings[0]];
    }
  }

  predicate ListsChunked(codings: seq<string>) {
    exists i :: 0 <= i < |codings| && EqualFold(TrimSpace(codings[i]), "chunked")
  }

  lemma CodingsIn(line: Line, codings: seq<string>)
    requires Named(line, "Transfer-Encoding") && SplitCommas(line[IndexByte(line, ':') + 1..]) == codings
    ensures ChunkedLine(line) <==> ListsChunked(codings)
  {
  }

  lemma CodingsOf(name: string, value: string, codings: seq<string>)
    requires Named(LineOf(name, value), "Transfer-Encoding") && ':' !in name && SplitCommas(value) == codings
    ensures ChunkedLine(LineOf(name, value)) <==> ListsChunked(codings)
  {
    LineParts(name, value);
    CodingsIn(LineOf(name, value), codings);
  }

  lemma CodingsAreRead(name: string, codings: seq<string>)
    requires EqualFold(name, "Transfer-Encoding") && codings != [] && forall i :: 0 <= i < |codings| ==> ',' !in codings[i]
    ensures ChunkedLine(LineOf(name, JoinCommas(codings))) <==> ListsChunked(codings)
  {
    LineNamed(name, JoinCommas(codings), "Transfer-Encoding");
    SplitJoined(codings);
    CodingsOf(name, JoinCommas(codings), codings);
  }

  /** A body is chunked just when a line named Transfer-Encoding, in any case, lists that coding. */
  lemma ChunkedIsRead(before: seq<Line>, name: string, codings: seq<string>, after: seq<Line>)
    requires EqualFold(name, "Transfer-Encoding") && codings != [] && forall i :: 0 <= i < |codings| ==> ',' !in codings[i]
    requires forall i :: 0 <= i < |before| ==> !Named(before[i], "Transfer-Encoding")
    requires forall i :: 0 <= i < |after| ==> !Named(after[i], "Transfer-Encoding")
    ensures UsesChunked(before + [LineOf(name, JoinCommas(codings))] + after)
       <==> ListsChunked(codings)
  {
    CodingsAreRead(name, codings);
    OneDecides(before, LineOf(name, JoinCommas(codings)), after);
  }

  lemma OneDecides(before: seq<Line>, line: Line, after: seq<Line>)
    requires forall i :: 0 <= i < |before| ==> !ChunkedLine(before[i])
    requires forall i :: 0 <= i < |after| ==> !ChunkedLine(after[i])
    ensures UsesChunked(before + [line] + after) <==> ChunkedLine(line)
  {
    var lines := before + [line] + after;
    assert lines[|before|] == line;
    forall i | 0 <= i < |lines| && i != |before|
      ensures !ChunkedLine(lines[i])
    {
      assert lines[i] == if i < |before| then before[i] else after[i - |before| - 1];
    }
  }

  /** The names that are asked for are those for the method and the target of the request line. */
  lemma NamesAreAsked(method_: string, target: string, version: string, order: Order)
    requires ' ' !in method_ && ' ' !in target
    ensures DesiredNames(method_ + " " + target + " " + version, order) == order(method_, target)
  {
    RequestIsRead(method_, target, version);
  }

  /** A request line without a space asks for none. */
  lemma NoNamesAreAsked(line: Line, order: Order)
    requires ' ' !in line
    ensures DesiredNames(line, order) == []
  {
  }

  /** The method and the target of a request line. */
  lemma RequestIsRead(method_: string, target: string, version: string)
    requires ' ' !in method_ && ' ' !in target
    ensures RequestParts(method_ + " " + target + " " + version) == Some((method_, target))
  {
    var rest := target + " " + version;
    var line := method_ + " " + rest;
    assert method_ + " " + target + " " + version == line;
    FirstSpace(method_, rest);
    FirstSpace(target, version);
  }

  lemma FirstSpace(a: string, b: string)
    requires ' ' !in a
    ensures var s := a + " " + b; IndexByte(s, ' ') == |a| && s[..|a|] == a && s[|a| + 1..] == b
  {
    FirstByte(a, ' ', b);
    assert a + " " + b == a + [' '] + b;
  }

  // --------------------------------------------------------- where a header ends

  /** No line is empty, and none contains CRLF. */
  predicate Proper(lines: seq<Line>) {
    lines != [] && forall i :: 0 <= i < |lines| ==> lines[i] != "" && Unbroken(lines[i])
  }

  function HeaderOf(lines: seq<Line>): string {
    Render(lines) + CRLF
  }

  lemma FindIs(s: string, pat: string, e: nat)
    requires At(s, e, pat) && forall k: nat :: k < e ==> !At(s, k, pat)
    ensures Find(s, pat) == e
  {
  }

  lemma EndIsTwo(s: string, k: nat)
    ensures At(s, k, END) <==> At(s, k, CRLF) && At(s, k + 2, CRLF)
  {
    if k + 4 <= |s| {
      assert s[k..k + 4] == s[k..k + 2] + s[k + 2..k + 4];
      assert s[k..k + 4][..2] == s[k..k + 2] && s[k..k + 4][2..] == s[k + 2..k + 4];
      assert END == CRLF + CRLF && END[..2] == CRLF && END[2..] == CRLF;
    }
  }

  lemma AtFirst(s: string, i: nat)
    ensures i < |s| && s[i] != '\r' ==> !At(s, i, CRLF)
  {
    if i + 2 <= |s| {
      assert s[i..i + 2][0] == s[i] && CRLF[0] == '\r';
    }
  }

  lemma AtSuffix(a: string, tail: string, k: nat, pat: string)
    ensures At(a + tail, |a| + k, pat) <==> At(tail, k, pat)
  {
    if k + |pat| <= |tail| {
      assert (a + tail)[|a| + k..|a| + k + |pat|] == tail[k..k + |pat|];
    }
  }

  /** In a line with its CRLF no empty line begins, unless CRLF follows. */
  lemma NotInLine(l: Line, tail: string, k: nat)
    requires Unbroken(l) && l != "" && k < |l| + 2
    ensures At(l + CRLF + tail, k, END) <==> k == |l| && At(tail, 0, CRLF)
  {
    var s := l + CRLF + tail;
    FindLineEnd(l, tail);
    EndIsTwo(s, k);
    AtSuffix(l + CRLF, tail, 0, CRLF);
    if k == |l| + 1 {
      AtFirst(s, k);
      assert s[|l| + 1] == '\n';
    }
  }

  lemma EndsHere(l: Line, rest: string)
    requires Unbroken(l) && l != ""
    ensures Find(l + CRLF + (CRLF + rest), END) == |l|
  {
    var s := l + CRLF + (CRLF + rest);
    assert (CRLF + rest)[..2] == CRLF;
    forall k: nat | k <= |l|
      ensures At(s, k, END) <==> k == |l|
    {
      NotInLine(l, CRLF + rest, k);
    }
    FindIs(s, END, |l|);
  }

  lemma FindAfter(a: string, tail: string, pat: string, e: nat)
    requires Find(tail, pat) == e && forall k: nat :: k < |a| ==> !At(a + tail, k, pat)
    ensures Find(a + tail, pat) == |a| + e
  {
    forall k: nat | k < |a| + e
      ensures !At(a + tail, k, pat)
    {
      if k >= |a| {
        AtSuffix(a, tail, k - |a|, pat);
      }
    }
    AtSuffix(a, tail, e, pat);
    FindIs(a + tail, pat, |a| + e);
  }

  lemma EndsLater(l: Line, tail: string, e: nat)
    requires Unbroken(l) && l != "" && !At(tail, 0, CRLF) && Find(tail, END) == e
    ensures Find(l + CRLF + tail, END) == |l| + 2 + e
  {
    forall k: nat | k < |l + CRLF|
      ensures !At(l + CRLF + tail, k, END)
    {
      NotInLine(l, tail, k);
    }
    FindAfter(l + CRLF, tail, END, e);
  }

  lemma HeaderFirst(lines: seq<Line>, rest: string)
    requires lines != []
    ensures HeaderOf(lines) + rest == lines[0] + CRLF + (HeaderOf(lines[1..]) + rest)
  {
  }

  lemma HeaderSize(lines: seq<Line>)
    requires Proper(lines)
    ensures |HeaderOf(lines)| == |lines[0]| + 2 + |HeaderOf(lines[1..])| >= 5
  {
    HeaderFirst(lines, "");
    assert HeaderOf(lines) + "" == HeaderOf(lines) && HeaderOf(lines[1..]) + "" == HeaderOf(lines[1..]);
  }

  /** The first empty line is the one after all header lines. */
  lemma {:induction false} HeaderEnds(lines: seq<Line>, rest: string)
    requires Proper(lines)
    ensures |HeaderOf(lines)| >= 4 && Find(HeaderOf(lines) + rest, END) == |HeaderOf(lines)| - 4
    decreases |lines|
  {
    HeaderFirst(lines, rest);
    HeaderSize(lines);
    if |lines| == 1 {
      assert HeaderOf([]) == CRLF;
      EndsHere(lines[0], rest);
    } else {
      HeaderEnds(lines[1..], rest);
      FirstNonEmpty(lines[1..], rest);
      EndsLater(lines[0], HeaderOf(lines[1..]) + rest, |HeaderOf(lines[1..])| - 4);
    }
  }

  /** What begins with a proper line does not begin with CRLF. */
  lemma FirstNonEmpty(lines: seq<Line>, rest: string)
    requires Proper(lines)
    ensures !At(HeaderOf(lines) + rest, 0, CRLF)
  {
    HeaderFirst(lines, rest);
    FindLineEnd(lines[0], HeaderOf(lines[1..]) + rest);
  }
}

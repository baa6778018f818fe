/**
 * What the header rewriter makes of whole requests: the header reordered, the body of
 * just the announced length or just the encoded one, and the next request after it.
 */
module WireMeaning {
  import opened ChunkedTracker
  import opened HeaderMeaning
  import opened HeaderOrder
  import opened OrderedConn
  import opened Scanner
  import opened StableOrder
  import opened Text
  import opened TextLaws
  import ChunkedBody

  /** The lines of a header are those that it was rendered from. */
  lemma HeaderLines(lines: seq<Line>)
    requires Proper(lines)
    ensures |HeaderOf(lines)| >= 4 && SplitLines(HeaderOf(lines)[..|HeaderOf(lines)| - 4]) == lines
  {
    SplitRender(lines);
    assert HeaderOf(lines)[..|HeaderOf(lines)| - 4] == Render(lines)[..|Render(lines)| - 2];
  }

  lemma HeaderFraming(order: Order, lines: seq<Line>)
    requires Proper(lines)
    ensures |HeaderOf(lines)| >= 4
    ensures var o := OrderedHeader(HeaderOf(lines), order); o.chunked == UsesChunked(lines[1..]) && o.contentLength == ContentLength(lines[1..])
  {
    HeaderLines(lines);
  }

  /** The header that goes out has the lines that came in, those with the names asked for in front, in that order. */
  lemma HeaderGoesOut(order: Order, method_: string, target: string, version: string, lines: seq<Line>)
    requires ' ' !in method_ && ' ' !in target && Proper([method_ + " " + target + " " + version] + lines)
    ensures var first := method_ + " " + target + " " + version;
            && |HeaderOf([first] + lines)| >= 4
            && OrderedHeader(HeaderOf([first] + lines), order).header == HeaderOf([first] + OrderLines(lines, Named, order(method_, target)))
  {
    var first := method_ + " " + target + " " + version;
    HeaderLines([first] + lines);
    NamesAreAsked(method_, target, version, order);
    assert ([first] + lines)[0] == first && ([first] + lines)[1..] == lines;
  }

  // ------------------------------------------------- requests, however reordered

  /** A header block and what becomes of it. */
  ghost predicate Heads(rewrite: Rewriter, h: string, o: Ordered, tail: string) {
    |h| >= 4 && Find(h + tail, HeaderOrder.END) == |h| - 4 && rewrite(h) == o
  }

  /** What is read first is the header, and then what it announces. */
  lemma FirstIs(rewrite: Rewriter, h: string, o: Ordered, tail: string)
    requires Heads(rewrite, h, o, tail)
    ensures FirstRequest(rewrite, h + tail) == FirstBody(o, tail, |h|)
  {
    assert (h + tail)[..|h|] == h && (h + tail)[|h|..] == tail;
  }

  /** When what follows the header is taken as a body, the next request begins behind it. */
  lemma BodyRequest(first: Reader, h: string, o: Ordered, body: string, rest: string)
    requires h != "" && first(h + (body + rest)) == Request(o.header + body, |h| + |body|)
    ensures Whole(first, h + (body + rest)) == After(o.header + body, Whole(first, rest))
  {
    assert (h + (body + rest))[|h| + |body|..] == rest;
  }

  lemma CountedOf(rewrite: Rewriter, h: string, o: Ordered, body: string, rest: string)
    requires Heads(rewrite, h, o, body + rest) && !o.chunked && o.contentLength == |body|
    ensures Whole(Requests(rewrite), h + (body + rest)) == After(o.header + body, Whole(Requests(rewrite), rest))
  {
    FirstIs(rewrite, h, o, body + rest);
    assert (body + rest)[..|body|] == body;
    BodyRequest(Requests(rewrite), h, o, body, rest);
  }

  lemma PartOf(rewrite: Rewriter, h: string, o: Ordered, part: string)
    requires Heads(rewrite, h, o, part) && !o.chunked && o.contentLength > |part|
    ensures Whole(Requests(rewrite), h + part) == Sent(o.header + part, "")
  {
    FirstIs(rewrite, h, o, part);
  }

  lemma ChunksAre(o: Ordered, tail: string, body: string, rest: string, used: nat)
    requires o.chunked && tail == body + rest && ChunkedBody.BodyEnd(tail, 0, SizeOf) == ChunkedBody.End(|body|)
    ensures FirstBody(o, tail, used) == Request(o.header + body, used + |body|)
  {
    assert tail[..|body|] == body;
  }

  lemma ChunkedOf(rewrite: Rewriter, h: string, o: Ordered, body: string, rest: string)
    requires Heads(rewrite, h, o, body + rest) && o.chunked && ChunkedBody.BodyEnd(body + rest, 0, SizeOf) == ChunkedBody.End(|body|)
    ensures Whole(Requests(rewrite), h + (body + rest)) == After(o.header + body, Whole(Requests(rewrite), rest))
  {
    FirstIs(rewrite, h, o, body + rest);
    ChunksAre(o, body + rest, body, rest, |h|);
    BodyRequest(Requests(rewrite), h, o, body, rest);
  }

  // --------------------------------------------------------------- main results

  lemma HeaderHeads(order: Order, lines: seq<Line>, tail: string)
    requires Proper(lines)
    ensures |HeaderOf(lines)| >= 4
    ensures Heads(Rewrite(order), HeaderOf(lines), OrderedHeader(HeaderOf(lines), order), tail)
  {
    HeaderEnds(lines, tail);
  }

  /** Exactly as many bytes as announced are the body, and the next header begins there. */
  lemma CountedRequest(order: Order, lines: seq<Line>, body: string, rest: string)
    requires Proper(lines) && !UsesChunked(lines[1..]) && |body| == ContentLength(lines[1..])
    ensures |HeaderOf(lines)| >= 4
    ensures Whole(Requests(Rewrite(order)), HeaderOf(lines) + (body + rest))
         == After(OrderedHeader(HeaderOf(lines), order).header + body, Whole(Requests(Rewrite(order)), rest))
  {
    HeaderFraming(order, lines);
    HeaderHeads(order, lines, body + rest);
    CountedOf(Rewrite(order), HeaderOf(lines), OrderedHeader(HeaderOf(lines), order), body, rest);
  }

  /** A body that has not come to its announced end is passed on as far as it goes. */
  lemma CountedPart(order: Order, lines: seq<Line>, part: string)
    requires Proper(lines) && !UsesChunked(lines[1..]) && |part| < ContentLength(lines[1..])
    ensures |HeaderOf(lines)| >= 4
    ensures Whole(Requests(Rewrite(order)), HeaderOf(lines) + part) == Sent(OrderedHeader(HeaderOf(lines), order).header + part, "")
  {
    HeaderFraming(order, lines);
    HeaderHeads(order, lines, part);
    PartOf(Rewrite(order), HeaderOf(lines), OrderedHeader(HeaderOf(lines), order), part);
  }

  /** Of a chunked request exactly one encoded body is passed on, whatever its length line says. */
  lemma ChunkedRequest(order: Order, lines: seq<Line>, chunks: seq<ChunkedBody.Chunk>, last: string, trailers: seq<string>, rest: string)
    requires Proper(lines) && UsesChunked(lines[1..]) && ChunkedBody.WellFormed(chunks, last, trailers, SizeOf)
    ensures |HeaderOf(lines)| >= 4
    ensures var body := ChunkedBody.EncodeBody(chunks, last, trailers);
            Whole(Requests(Rewrite(order)), HeaderOf(lines) + (body + rest)) ==
            After(OrderedHeader(HeaderOf(lines), order).header + body, Whole(Requests(Rewrite(order)), rest))
  {
    EncodedEnd(chunks, last, trailers, rest);
    ChunkedBodyRequest(order, lines, ChunkedBody.EncodeBody(chunks, last, trailers), rest);
  }

  lemma ChunkedBodyRequest(order: Order, lines: seq<Line>, body: string, rest: string)
    requires Proper(lines) && UsesChunked(lines[1..]) && ChunkedBody.BodyEnd(body + rest, 0, SizeOf) == ChunkedBody.End(|body|)
    ensures |HeaderOf(lines)| >= 4
    ensures Whole(Requests(Rewrite(order)), HeaderOf(lines) + (body + rest))
         == After(OrderedHeader(HeaderOf(lines), order).header + body, Whole(Requests(Rewrite(order)), rest))
  {
    HeaderFraming(order, lines);
    HeaderHeads(order, lines, body + rest);
    ChunkedOf(Rewrite(order), HeaderOf(lines), OrderedHeader(HeaderOf(lines), order), body, rest);
  }

  lemma EncodedEnd(chunks: seq<ChunkedBody.Chunk>, last: string, trailers: seq<string>, rest: string)
    requires ChunkedBody.WellFormed(chunks, last, trailers, SizeOf)
    ensures var body := ChunkedBody.EncodeBody(chunks, last, trailers);
            ChunkedBody.BodyEnd(body + rest, 0, SizeOf) == ChunkedBody.End(|body|)
  {
    ChunkedBody.TrackerStopsAtTheEnd(chunks, last, trailers, rest);
    ChunkedBody.TrackerIsReader(ChunkedBody.EncodeBody(chunks, last, trailers) + rest);
  }

  /**
   * A length line in decimal, in any case and with white space around the number, makes
   * just that many bytes after the empty line the body of the request.
   */
  lemma LengthFramesBody(order: Order, first: Line, before: seq<Line>, name: string, left: string, n: nat, right: string, after: seq<Line>,
                         body: string, rest: string)
    requires EqualFold(name, "Content-Length") && Blank(left) && Blank(right) && n <= MAX_INT64 && |body| == n
    requires forall i :: 0 <= i < |before| ==> !Named(before[i], "Content-Length")
    requires var lines := [first] + (before + [LineOf(name, left + Digits(n, 10) + right)] + after);
             Proper(lines) && !UsesChunked(lines[1..])
    ensures var h := HeaderOf([first] + (before + [LineOf(name, left + Digits(n, 10) + right)] + after));
            && |h| >= 4
            && Whole(Requests(Rewrite(order)), h + (body + rest))
            == After(OrderedHeader(h, order).header + body, Whole(Requests(Rewrite(order)), rest))
  {
    LengthIsRead(before, name, left, n, right, after);
    var some := before + [LineOf(name, left + Digits(n, 10) + right)] + after;
    assert ([first] + some)[1..] == some;
    CountedRequest(order, [first] + some, body, rest);
  }
}

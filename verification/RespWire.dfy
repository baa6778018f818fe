/** The Redis serialization protocol byte for byte: what the printers write, and what a reader refuses. */
module RespWire {
  import opened RespCodec
  import opened Text
  import opened Wrappers

  lemma Bulks()
    ensures PrintedBulk(Some("GET")) == "$3\r\nGET\r\n" && PrintedBulk(Some("")) == "$0\r\n\r\n" && PrintedBulk(None) == "$-1\r\n"
  {
    assert Digits(3, 10) == "3" && Digits(0, 10) == "0";
  }

  lemma ItemsOf(a: Option<string>, b: Option<string>)
    ensures PrintedItems([a, b]) == PrintedBulk(a) + PrintedBulk(b)
  {
    assert [a, b][1..] == [b] && [b][1..] == [];
    assert PrintedItems([b]) == PrintedBulk(b);
  }

  lemma ArrayOf(a: Option<string>, b: Option<string>)
    ensures PrintedArray([a, b]) == "*" + ("2" + CRLF + (PrintedBulk(a) + PrintedBulk(b)))
  {
    ItemsOf(a, b);
    assert Digits(2, 10) == "2";
  }

  /** A bulk string, an empty one, nil, and an array of the first and the last. */
  lemma WireFormat()
    ensures PrintedBulk(Some("GET")) == "$3\r\nGET\r\n" && PrintedBulk(Some("")) == "$0\r\n\r\n" && PrintedBulk(None) == "$-1\r\n"
    ensures PrintedArray([Some("GET"), None]) == "*" + ("2" + "\r\n" + ("$3\r\nGET\r\n" + "$-1\r\n"))
  {
    Bulks();
    ArrayOf(Some("GET"), None);
  }

  /** A stream that does not begin with an asterisk is refused, and an empty one is at its end. */
  lemma NotAnArray(s: string)
    ensures s == "" ==> Array(s) == Err(EndOfStream)
    ensures s != "" && s[0] != '*' ==> Array(s) == Err(Protocol)
  {
  }

  /** A bulk string that the stream ends in is not read, nor one that CRLF does not follow. */
  lemma BulkEnds(bytes: string, part: string, length: nat)
    requires |part| < length + 2 && length <= MAX_INT64
    ensures Sized(Some(length), part) == Err(EndOfStream)
    ensures |bytes| >= length + 2 && bytes[length..length + 2] != CRLF ==> Sized(Some(length), bytes) == Err(Protocol)
  {
    if |bytes| >= length + 2 && bytes[length] == '\r' && bytes[length + 1] == '\n' {
      assert bytes[length..length + 2] == CRLF;
    }
  }
}

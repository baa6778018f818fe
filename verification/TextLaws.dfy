/** What the string functions make of texts put together from parts. */
module TextLaws {
  import opened Text
  import opened Wrappers

  // --------------------------------------------------- what trimming leaves

  /** White space only. */
  predicate Blank(s: string) {
    forall i :: 0 <= i < |s| ==> IsSpace(s[i])
  }

  lemma {:induction false} TrimLeftBlank(a: string, s: string)
    requires Blank(a)
    ensures TrimLeft(a + s) == TrimLeft(s)
  {
    if a == "" {
      assert a + s == s;
    } else {
      assert (a + s)[1..] == a[1..] + s;
      TrimLeftBlank(a[1..], s);
    }
  }

  lemma {:induction false} TrimRightBlank(s: string, b: string)
    requires Blank(b)
    ensures TrimRight(s + b) == TrimRight(s)
  {
    if b == "" {
      assert s + b == s;
    } else {
      assert (s + b)[..|s + b| - 1] == s + b[..|b| - 1] && (s + b)[|s + b| - 1] == b[|b| - 1];
      TrimRightBlank(s, b[..|b| - 1]);
    }
  }

  /** White space around a text goes, and nothing else. */
  lemma TrimAround(a: string, s: string, b: string)
    requires Blank(a) && Blank(b) && s != "" && !IsSpace(s[0]) && !IsSpace(s[|s| - 1])
    ensures TrimSpace(a + s + b) == s
  {
    assert a + s + b == a + (s + b);
    TrimLeftBlank(a, s + b);
    assert TrimLeft(s + b) == s + b;
    TrimRightBlank(s, b);
    assert TrimRight(s) == s;
  }

  /** A number too large for 64 bits is refused. */
  lemma ParseLarge(n: nat, base: nat)
    requires (base == 10 || base == 16) && n > MAX_INT64
    ensures ParseInt(Digits(n, base), base) == None
  {
    ValueOfDigits(n, base);
  }

  /** A character is found behind what does not contain it. */
  lemma {:induction false} FirstByte(a: string, c: char, b: string)
    requires c !in a
    ensures var s := a + [c] + b; IndexByte(s, c) == |a| && s[..|a|] == a && s[|a| + 1..] == b
  {
    var s := a + [c] + b;
    if a != "" {
      assert s[0] == a[0] && s[1..] == a[1..] + [c] + b;
      FirstByte(a[1..], c, b);
    }
  }
}

/**
 * The string functions of the Go library that the models rely on.  A Go string
 * is a byte string; here it is a `string` whose characters are the bytes.  Case
 * folding and white space are those of ASCII.
 */
module Text {
  import opened Wrappers

  const CRLF: string := "\r\n"

  // ------------------------------------------------------------- white space

  predicate IsSpace(c: char) {
    c == ' ' || '\t' <= c <= '\r'
  }

  function TrimLeft(s: string): string {
    if s != "" && IsSpace(s[0]) then TrimLeft(s[1..]) else s
  }

  function TrimRight(s: string): string {
    if s != "" && IsSpace(s[|s| - 1]) then TrimRight(s[..|s| - 1]) else s
  }

  function TrimSpace(s: string): string {
    TrimRight(TrimLeft(s))
  }

  // ------------------------------------------------------------ case folding

  function LowerChar(c: char): char {
    if 'A' <= c <= 'Z' then c + ' ' else c
  }

  function Lower(s: string): string {
    seq(|s|, i requires 0 <= i < |s| => LowerChar(s[i]))
  }

  predicate EqualFold(a: string, b: string) {
    Lower(a) == Lower(b)
  }

  // --------------------------------------------------------------- searching

  predicate At(s: string, i: int, pat: string) {
    0 <= i && i + |pat| <= |s| && s[i..i + |pat|] == pat
  }

  /** The first place where `pat` occurs, or -1. */
  function Find(s: string, pat: string): (r: int)
    ensures r == -1 || At(s, r, pat)
    ensures forall i :: At(s, i, pat) ==> 0 <= r <= i
    decreases |s|
  {
    if At(s, 0, pat) then
      0
    else if s == "" then
      -1
    else
      var r := Find(s[1..], pat);
      assert forall i :: 0 < i && At(s, i, pat) ==> At(s[1..], i - 1, pat) by {
        forall i | 0 < i && At(s, i, pat)
          ensures At(s[1..], i - 1, pat)
        {
          assert s[1..][i - 1..i - 1 + |pat|] == s[i..i + |pat|];
        }
      }
      assert r >= 0 ==> s[r + 1..r + 1 + |pat|] == s[1..][r..r + |pat|];
      if r < 0 then -1 else r + 1
  }

  /** The first place of one character, or -1. */
  function IndexByte(s: string, c: char): (r: int)
    ensures -1 <= r < |s|
    ensures r >= 0 ==> s[r] == c && c !in s[..r]
    ensures r < 0 ==> c !in s
  {
    if s == "" then -1
    else if s[0] == c then 0
    else
      var r := IndexByte(s[1..], c);
      if r < 0 then -1 else r + 1
  }

  // ----------------------------------------------------------------- numbers

  const MAX_INT64: int := 0x7fff_ffff_ffff_ffff

  /** The value of a digit, or 99 if the character is none. */
  function DigitValue(c: char): nat {
    if '0' <= c <= '9' then (c - '0') as nat
    else if 'a' <= c <= 'z' then (c - 'a') as nat + 10
    else if 'A' <= c <= 'Z' then (c - 'A') as nat + 10
    else 99
  }

  function Digit(v: nat): (c: char)
    requires v < 16
    ensures DigitValue(c) == v && c != '\r' && c != '\n' && c != '+' && c != '-' && c != ';' && !IsSpace(c)
  {
    "0123456789abcdef"[v]
  }

  predicate AllDigits(s: string, base: nat) {
    forall i :: 0 <= i < |s| ==> DigitValue(s[i]) < base
  }

  function ValueOf(s: string, base: nat): nat
    requires AllDigits(s, base)
  {
    if s == "" then 0 else ValueOf(s[..|s| - 1], base) * base + DigitValue(s[|s| - 1])
  }

  /** strconv.ParseInt with a 64-bit result: an optional sign, then digits. */
  function ParseInt(s: string, base: nat): (r: Option<int>)
    ensures r.Some? ==> -MAX_INT64 - 1 <= r.value <= MAX_INT64
  {
    var signed := s != "" && (s[0] == '+' || s[0] == '-');
    var digits := if signed then s[1..] else s;
    if digits == "" || !AllDigits(digits, base) then None
    else
      var v := ValueOf(digits, base);
      if signed && s[0] == '-' then (if v <= MAX_INT64 + 1 then Some(-(v as int)) else None)
      else if v <= MAX_INT64 then Some(v) else None
  }

  /** The digits of a number without leading zeros, as strconv.Itoa prints them. */
  function Digits(n: nat, base: nat): (s: string)
    requires base == 10 || base == 16
    ensures s != "" && AllDigits(s, base) && Plain(s)
    decreases n
  {
    if n < base then [Digit(n)]
    else if base == 10 then Digits(n / 10, base) + [Digit(n % 10)]
    else Digits(n / 16, base) + [Digit(n % 16)]
  }

  /** No sign, separator or white space. */
  predicate Plain(s: string) {
    forall i :: 0 <= i < |s| ==>
      s[i] != '\r' && s[i] != '\n' && s[i] != '+' && s[i] != '-' && s[i] != ';' && !IsSpace(s[i])
  }

  lemma ValueOfSnoc(s: string, c: char, base: nat)
    requires AllDigits(s, base) && DigitValue(c) < base
    ensures AllDigits(s + [c], base) && ValueOf(s + [c], base) == ValueOf(s, base) * base + DigitValue(c)
  {
    assert (s + [c])[..|s|] == s;
  }

  lemma {:induction false} ValueOfDigits(n: nat, base: nat)
    requires base == 10 || base == 16
    ensures ValueOf(Digits(n, base), base) == n
    decreases n
  {
    if n < base {
      ValueOfSnoc("", Digit(n), base);
      assert "" + [Digit(n)] == [Digit(n)];
    } else if base == 10 {
      ValueOfDigits(n / 10, base);
      ValueOfSnoc(Digits(n / 10, base), Digit(n % 10), base);
    } else {
      ValueOfDigits(n / 16, base);
      ValueOfSnoc(Digits(n / 16, base), Digit(n % 16), base);
    }
  }

  /** Every number that fits is read back from its own digits. */
  lemma ParsePrinted(n: nat, base: nat)
    requires (base == 10 || base == 16) && n <= MAX_INT64
    ensures ParseInt(Digits(n, base), base) == Some(n)
  {
    ValueOfDigits(n, base);
  }

  lemma TrimNothing(s: string)
    requires s == "" || (!IsSpace(s[0]) && !IsSpace(s[|s| - 1]))
    ensures TrimSpace(s) == s
  {
  }
}

/** Decimal rendering and parsing of integers, as Python's `str(int)` and `int(str)`
    are used by the card display, the move descriptions and main.py's move names. */
module Text {
  import opened Wrappers

  function DigitChar(d: nat): (c: char)
    requires d < 10
    ensures '0' <= c <= '9'
  {
    "0123456789"[d]
  }

  predicate IsDigit(c: char) {
    '0' <= c <= '9'
  }

  function DigitValue(c: char): (d: nat)
    requires IsDigit(c)
    ensures d < 10 && DigitChar(d) == c
  {
    (c - '0') as nat
  }

  /** `str(n)` for a non-negative Python int: decimal digits, no leading zero. */
  function NatToString(n: nat): (s: string)
    ensures |s| > 0 && forall k :: 0 <= k < |s| ==> IsDigit(s[k])
    ensures |s| > 1 ==> s[0] != '0'
    decreases n
  {
    if n < 10 then [DigitChar(n)] else NatToString(n / 10) + [DigitChar(n % 10)]
  }

  /** `str(i)` for any Python int: a minus sign before the digits of a negative number. */
  function IntToString(i: int): (s: string)
    ensures |s| > 0
    ensures i >= 0 <==> IsDigit(s[0])
  {
    if i < 0 then "-" + NatToString(-i) else NatToString(i)
  }

  /** The value of a non-empty string of decimal digits (left to right). */
  function DigitsValue(s: string): (n: nat)
    requires forall k :: 0 <= k < |s| ==> IsDigit(s[k])
    decreases |s|
  {
    if |s| == 0 then 0 else DigitsValue(s[..|s| - 1]) * 10 + DigitValue(s[|s| - 1])
  }

  /** `int(s)` restricted to an optional sign followed by at least one decimal digit. */
  function ParseInt(s: string): (r: Option<int>)
    ensures r.Some? && s != [] && IsDigit(s[0]) ==> r.value >= 0
  {
    if |s| > 0 && (s[0] == '-' || s[0] == '+') then
      var body := s[1..];
      if |body| > 0 && forall k :: 0 <= k < |body| ==> IsDigit(body[k]) then
        Some(if s[0] == '-' then 0 - DigitsValue(body) as int else DigitsValue(body))
      else None
    else if |s| > 0 && forall k :: 0 <= k < |s| ==> IsDigit(s[k]) then Some(DigitsValue(s))
    else None
  }

  /** Reading back what `NatToString` wrote gives the number again. */
  lemma {:induction false} DigitsRoundTrip(n: nat)
    ensures DigitsValue(NatToString(n)) == n
    decreases n
  {
    if n >= 10 {
      var s := NatToString(n);
      DigitsRoundTrip(n / 10);
      assert s[..|s| - 1] == NatToString(n / 10);
      assert DigitValue(s[|s| - 1]) == n % 10;
    }
  }

  /** A non-empty run of digits parses to its value. */
  lemma ParseDigits(s: string)
    requires |s| > 0 && forall k :: 0 <= k < |s| ==> IsDigit(s[k])
    ensures ParseInt(s) == Some(DigitsValue(s))
  {
    assert s[0] != '-' && s[0] != '+' by { assert IsDigit(s[0]); }
  }

  /** A minus sign before a non-empty run of digits parses to the value negated. */
  lemma ParseNegated(body: string)
    requires |body| > 0 && forall k :: 0 <= k < |body| ==> IsDigit(body[k])
    ensures ParseInt("-" + body) == Some(0 - DigitsValue(body) as int)
  {
    var s := "-" + body;
    assert s[0] == '-' && s[1..] == body;
  }

  /** `int(str(i)) == i`: the rendering of every Python int parses back to it. */
  lemma IntRoundTrip(i: int)
    ensures ParseInt(IntToString(i)) == Some(i)
  {
    var digits := NatToString(if i < 0 then -i else i);
    DigitsRoundTrip(if i < 0 then -i else i);
    if i < 0 {
      ParseNegated(digits);
      assert IntToString(i) == "-" + digits;
    } else {
      ParseDigits(digits);
      assert IntToString(i) == digits;
    }
  }

  // ---------------------------------------------------------------------------
  // Reading a word back out of a longer text

  /** Every character of `s` passes `inWord`. */
  predicate AllIn(s: string, inWord: char -> bool) {
    forall k :: 0 <= k < |s| ==> inWord(s[k])
  }

  /** The length of the longest prefix of `s` whose characters all pass `inWord`. */
  function WordLength(s: string, inWord: char -> bool): (n: nat)
    ensures n <= |s|
    ensures forall k :: 0 <= k < n ==> inWord(s[k])
    ensures n < |s| ==> !inWord(s[n])
    decreases |s|
  {
    if |s| == 0 || !inWord(s[0]) then 0 else 1 + WordLength(s[1..], inWord)
  }

  /** A word followed by a character outside it ends where `WordLength` says. */
  lemma WordThenStop(x: string, y: string, inWord: char -> bool)
    requires AllIn(x, inWord) && |y| > 0 && !inWord(y[0])
    ensures WordLength(x + y, inWord) == |x|
  {
    assert (x + y)[|x|] == y[0];
  }

  /** Two texts that each start with a word followed by a character outside it are
      equal only when the words and what follows them are. */
  lemma SplitAtStop(x1: string, y1: string, x2: string, y2: string, inWord: char -> bool)
    requires AllIn(x1, inWord) && |y1| > 0 && !inWord(y1[0])
    requires AllIn(x2, inWord) && |y2| > 0 && !inWord(y2[0])
    requires x1 + y1 == x2 + y2
    ensures x1 == x2 && y1 == y2
  {
    WordThenStop(x1, y1, inWord);
    WordThenStop(x2, y2, inWord);
    assert x1 == (x1 + y1)[..|x1|] && x2 == (x2 + y2)[..|x2|];
    assert y1 == (x1 + y1)[|x1|..] && y2 == (x2 + y2)[|x2|..];
  }

  /** `str` of a natural number is all digits. */
  lemma NatStringDigits(n: nat)
    ensures IntToString(n) == NatToString(n) && AllIn(IntToString(n), IsDigit)
  {
  }

  /** Different natural numbers print differently. */
  lemma NatStringInjective(a: nat, b: nat)
    requires IntToString(a) == IntToString(b)
    ensures a == b
  {
    DigitsRoundTrip(a);
    DigitsRoundTrip(b);
  }
}

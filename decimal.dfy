/**
 * Decimal rendering of integers, as Python's `str(int)` does inside the
 * f-strings of the script (the problem number in the question text and the
 * running index in the output file name), with the parser that inverts it.
 */
module Decimal {

  predicate IsDigit(c: char) {
    '0' <= c <= '9'
  }

  predicate AllDigits(s: string) {
    forall i :: 0 <= i < |s| ==> IsDigit(s[i])
  }

  /** A well-formed decimal numeral: digits, optionally after one minus sign. */
  predicate IsNumeral(s: string) {
    (|s| >= 1 && AllDigits(s)) || (|s| >= 2 && s[0] == '-' && AllDigits(s[1..]))
  }

  function DigitValue(c: char): (d: nat)
    requires IsDigit(c)
    ensures d < 10
  {
    c as int - '0' as int
  }

  function DigitChar(d: nat): (c: char)
    requires d < 10
    ensures IsDigit(c) && DigitValue(c) == d
  {
    ('0' as int + d) as char
  }

  /** The digits of `n`, most significant first, without leading zeros. */
  function NatToDecimal(n: nat): (s: string)
    ensures |s| >= 1 && AllDigits(s)
    ensures |s| > 1 ==> s[0] != '0'
  {
    if n < 10 then [DigitChar(n)] else NatToDecimal(n / 10) + [DigitChar(n % 10)]
  }

  /** `str(n)` for a Python int: a minus sign for negative values. */
  function IntToDecimal(n: int): (s: string)
    ensures IsNumeral(s)
    ensures (s[0] == '-') <==> n < 0
  {
    if n < 0 then "-" + NatToDecimal(-n) else NatToDecimal(n)
  }

  function ParseNat(s: string): nat
    requires AllDigits(s)
  {
    if s == [] then 0 else 10 * ParseNat(s[..|s| - 1]) + DigitValue(s[|s| - 1])
  }

  function ParseInt(s: string): int
    requires IsNumeral(s)
  {
    if s[0] == '-' then -(ParseNat(s[1..]) as int) else ParseNat(s)
  }

  lemma {:induction false} ParseNatInverts(n: nat)
    ensures ParseNat(NatToDecimal(n)) == n
  {
    if n >= 10 {
      var s := NatToDecimal(n);
      assert s[..|s| - 1] == NatToDecimal(n / 10);
      ParseNatInverts(n / 10);
    }
  }

  /** Reading back the rendered numeral gives the number: the rendering loses nothing. */
  lemma ParseIntInverts(n: int)
    ensures ParseInt(IntToDecimal(n)) == n
  {
    if n < 0 {
      assert IntToDecimal(n)[1..] == NatToDecimal(-n);
      ParseNatInverts(-n);
    } else {
      ParseNatInverts(n);
    }
  }

  /** Distinct numbers are rendered as distinct numerals. */
  lemma IntToDecimalInjective(m: int, n: int)
    requires IntToDecimal(m) == IntToDecimal(n)
    ensures m == n
  {
    ParseIntInverts(m);
    ParseIntInverts(n);
  }

  /** Position of the first `c` in `s`, or `|s|` when there is none (as `str.find`, but never -1). */
  function IndexOf(s: string, c: char): (i: nat)
    ensures i <= |s|
    ensures forall j :: 0 <= j < i ==> s[j] != c
    ensures i < |s| ==> s[i] == c
  {
    if s == [] then 0 else if s[0] == c then 0 else 1 + IndexOf(s[1..], c)
  }

  /** A separator that is not a digit ends a run of digits: the first one is found right after it. */
  lemma IndexOfAfterDigits(d: string, c: char, rest: string)
    requires AllDigits(d) && !IsDigit(c)
    ensures IndexOf(d + [c] + rest, c) == |d|
  {
    var s := d + [c] + rest;
    var i := IndexOf(s, c);
    assert s[|d|] == c;
  }
}

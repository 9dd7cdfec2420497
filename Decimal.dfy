/**
 Decimal rendering of integers, as the server formats the count of free
 spots for a query (Python's `str` on an `int`), and a reference parser
 for the numerals it produces.
 */
module Decimal {

  predicate IsDigit(c: char)
  {
    '0' <= c <= '9'
  }

  function DigitChar(d: nat): (c: char)
    requires d < 10
    ensures IsDigit(c) && c as int - '0' as int == d
  {
    (d + '0' as int) as char
  }

  function DigitValue(c: char): (d: nat)
    requires IsDigit(c)
    ensures d < 10 && DigitChar(d) == c
  {
    c as int - '0' as int
  }

  /** A non-empty string of digits. */
  ghost predicate IsDigits(s: string)
  {
    s != [] && forall k :: 0 <= k < |s| ==> IsDigit(s[k])
  }

  /** The shape Python prints for a natural number: digits, and no leading
      zero unless the number is zero itself. */
  ghost predicate IsCanonical(s: string)
  {
    IsDigits(s) && (s[0] == '0' ==> s == "0")
  }

  /** The decimal numeral of `n`, most significant digit first. */
  function NatToDecimal(n: nat): (r: string)
    ensures IsCanonical(r)
    ensures |r| == 1 <==> n < 10
    decreases n
  {
    if n < 10 then [DigitChar(n)] else NatToDecimal(n / 10) + [DigitChar(n % 10)]
  }

  /** The value of a string of digits read in base ten. */
  function DecimalValue(s: string): nat
    requires forall k :: 0 <= k < |s| ==> IsDigit(s[k])
    decreases |s|
  {
    if s == [] then 0 else 10 * DecimalValue(s[..|s| - 1]) + DigitValue(s[|s| - 1])
  }

  /** Python's `str(i)`: a minus sign before the numeral of a negative value. */
  function IntToDecimal(i: int): (r: string)
    ensures r != []
    ensures r[0] == '-' <==> i < 0
    ensures i >= 0 ==> IsCanonical(r)
    ensures i < 0 ==> IsCanonical(r[1..])
  {
    if i < 0 then "-" + NatToDecimal(-i) else NatToDecimal(i)
  }

  /** The value of a string that is a numeral with an optional minus sign. */
  function ParseInt(s: string): int
    requires IsDigits(s) || (s != [] && s[0] == '-' && IsDigits(s[1..]))
  {
    if s[0] == '-' then -(DecimalValue(s[1..]) as int) else DecimalValue(s)
  }

  /** Reading the numeral of `n` gives back `n`. */
  lemma {:induction false} DecimalRoundTrip(n: nat)
    ensures DecimalValue(NatToDecimal(n)) == n
    decreases n
  {
    var r := NatToDecimal(n);
    if n >= 10 {
      DecimalRoundTrip(n / 10);
      assert r[..|r| - 1] == NatToDecimal(n / 10);
    }
  }

  /** Every canonical numeral is the numeral of its own value, so
      NatToDecimal is onto the canonical strings. */
  lemma {:induction false} CanonicalRoundTrip(s: string)
    requires IsCanonical(s)
    ensures NatToDecimal(DecimalValue(s)) == s
    decreases |s|
  {
    if |s| > 1 {
      var front := s[..|s| - 1];
      assert IsCanonical(front) by {
        assert front[0] == s[0];
      }
      CanonicalRoundTrip(front);
      var v := DecimalValue(front);
      var n := DecimalValue(s);
      assert n / 10 == v && n % 10 == DigitValue(s[|s| - 1]);
      assert NatToDecimal(n) == NatToDecimal(v) + [DigitChar(n % 10)];
    }
  }

  /** Distinct counts give distinct replies. */
  lemma NatToDecimalInjective(m: nat, n: nat)
    requires NatToDecimal(m) == NatToDecimal(n)
    ensures m == n
  {
    DecimalRoundTrip(m);
    DecimalRoundTrip(n);
  }

  /** Reading `str(i)` gives back `i`, for negative values too. */
  lemma IntRoundTrip(i: int)
    ensures ParseInt(IntToDecimal(i)) == i
  {
    if i < 0 {
      assert IntToDecimal(i)[1..] == NatToDecimal(-i);
      DecimalRoundTrip(-i);
    } else {
      DecimalRoundTrip(i);
    }
  }
}

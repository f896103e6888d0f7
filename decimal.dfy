/** Decimal text of integers, as `number.toString()` gives it for integer
    values, and the reading of such text back into a number. */
module Decimal {

  predicate IsDigit(c: char)
  {
    '0' <= c <= '9'
  }

  predicate AllDigits(s: string)
  {
    forall k :: 0 <= k < |s| ==> IsDigit(s[k])
  }

  /** Digit strings without a superfluous leading zero: "0", or digits not starting with '0'. */
  predicate IsCanonicalDigits(s: string)
  {
    |s| > 0 && AllDigits(s) && (s[0] == '0' ==> s == "0")
  }

  /** Canonical decimal text of an integer: a leading '-' only before a non-zero magnitude. */
  predicate IsCanonicalDecimal(s: string)
  {
    if |s| > 0 && s[0] == '-' then IsCanonicalDigits(s[1..]) && s[1..] != "0"
    else IsCanonicalDigits(s)
  }

  function DigitChar(d: nat): (c: char)
    requires d < 10
    ensures IsDigit(c)
  {
    ('0' as int + d) as char
  }

  function DigitOf(c: char): int
  {
    c as int - '0' as int
  }

  /** The digits of a natural number, most significant first. */
  function Digits(n: nat): (r: string)
    ensures IsCanonicalDigits(r)
    ensures r == "0" <==> n == 0
  {
    if n < 10 then [DigitChar(n)] else Digits(n / 10) + [DigitChar(n % 10)]
  }

  /** The number a digit string denotes, read from the left. */
  function DigitsValue(s: string): int
  {
    if s == [] then 0 else 10 * DigitsValue(s[..|s| - 1]) + DigitOf(s[|s| - 1])
  }

  /** The number a decimal text denotes. */
  function DecimalValue(s: string): int
  {
    if |s| > 0 && s[0] == '-' then -DigitsValue(s[1..]) else DigitsValue(s)
  }

  lemma NegatedValue(d: string)
    ensures DecimalValue("-" + d) == -DigitsValue(d)
  {
    assert ("-" + d)[0] == '-' && ("-" + d)[1..] == d;
  }

  lemma UnsignedValue(d: string)
    requires IsCanonicalDigits(d)
    ensures DecimalValue(d) == DigitsValue(d)
  {
    assert IsDigit(d[0]);
  }

  lemma {:induction false} DigitsRoundTrip(n: nat)
    ensures DigitsValue(Digits(n)) == n
  {
    if n >= 10 {
      var d := Digits(n / 10);
      assert (d + [DigitChar(n % 10)])[..|d|] == d;
      DigitsRoundTrip(n / 10);
    }
  }

  lemma {:induction false} DigitsValuePositive(s: string)
    requires AllDigits(s) && |s| > 0 && s[0] != '0'
    ensures DigitsValue(s) >= 1
  {
    if |s| > 1 {
      DigitsValuePositive(s[..|s| - 1]);
    }
  }

  /** Every canonical digit string is the digits of the number it denotes. */
  lemma {:induction false} DigitsOfValue(s: string)
    requires IsCanonicalDigits(s)
    ensures DigitsValue(s) >= 0
    ensures Digits(DigitsValue(s)) == s
  {
    if |s| > 1 {
      var init, c := s[..|s| - 1], s[|s| - 1];
      assert s == init + [c];
      DigitsValuePositive(init);
      DigitsOfValue(init);
      var v := DigitsValue(init);
      var n := DigitsValue(s);
      assert n == 10 * v + DigitOf(c) && 0 <= DigitOf(c) < 10;
      assert n / 10 == v && n % 10 == DigitOf(c);
      assert DigitChar(DigitOf(c)) == c;
    } else {
      assert DigitChar(DigitOf(s[0])) == s[0];
      assert s[..0] == [];
    }
  }
}

/** Decimal rendering of integers: the `%d` conversion of `String.format`. */
module Decimal {

  predicate IsDigit(c: char) {
    '0' <= c <= '9'
  }

  predicate AllDigits(s: string) {
    forall i :: 0 <= i < |s| ==> IsDigit(s[i])
  }

  function DigitChar(d: nat): (c: char)
    requires d < 10
    ensures IsDigit(c)
  {
    ('0' as int + d) as char
  }

  function DigitValue(c: char): (d: nat)
    requires IsDigit(c)
    ensures d < 10 && DigitChar(d) == c
  {
    c as int - '0' as int
  }

  /** The canonical decimal numeral of n: at least one digit, no leading zero. */
  function NatToDecimal(n: nat): string {
    if n < 10 then [DigitChar(n)] else NatToDecimal(n / 10) + [DigitChar(n % 10)]
  }

  /** The numeral of n is canonical: at least one digit, all digits, a leading zero only
      in the numeral of 0, and a single digit exactly for n < 10. */
  lemma {:induction false} NatToDecimalCanonical(n: nat)
    ensures |NatToDecimal(n)| >= 1 && AllDigits(NatToDecimal(n))
    ensures NatToDecimal(n)[0] == '0' ==> n == 0 && |NatToDecimal(n)| == 1
    ensures |NatToDecimal(n)| == 1 <==> n < 10
  {
    if n >= 10 {
      NatToDecimalCanonical(n / 10);
      assert NatToDecimal(n)[0] == NatToDecimal(n / 10)[0];
    }
  }

  /** The number a string of digits denotes, most significant digit first. */
  function DecimalValue(s: string): nat
    requires AllDigits(s)
  {
    if s == [] then 0 else DecimalValue(s[..|s| - 1]) * 10 + DigitValue(s[|s| - 1])
  }

  /** Reading back the numeral of n gives n again. */
  lemma {:induction false} DecimalRoundTrip(n: nat)
    ensures AllDigits(NatToDecimal(n)) && DecimalValue(NatToDecimal(n)) == n
  {
    NatToDecimalCanonical(n);
    var s := NatToDecimal(n);
    if n >= 10 {
      assert s[..|s| - 1] == NatToDecimal(n / 10);
      DecimalRoundTrip(n / 10);
    }
  }

  /** Every canonical numeral is the numeral of the number it denotes. */
  lemma {:induction false} CanonicalNumeralRoundTrip(s: string)
    requires |s| >= 1 && AllDigits(s)
    requires s[0] == '0' ==> |s| == 1
    ensures NatToDecimal(DecimalValue(s)) == s
  {
    if |s| > 1 {
      var init := s[..|s| - 1];
      CanonicalNumeralRoundTrip(init);
      PositiveNumeralValue(init);
      var v := DecimalValue(s);
      assert v / 10 == DecimalValue(init) && v % 10 == DigitValue(s[|s| - 1]);
      assert s == init + [s[|s| - 1]];
    }
  }

  /** A numeral of several digits with no leading zero denotes at least 1. */
  lemma {:induction false} PositiveNumeralValue(s: string)
    requires |s| >= 1 && AllDigits(s) && s[0] != '0'
    ensures DecimalValue(s) >= 1
  {
    if |s| > 1 {
      PositiveNumeralValue(s[..|s| - 1]);
    }
  }

  /** Distinct numbers have distinct numerals. */
  lemma NatToDecimalInjective(m: nat, n: nat)
    ensures NatToDecimal(m) == NatToDecimal(n) ==> m == n
  {
    DecimalRoundTrip(m);
    DecimalRoundTrip(n);
  }

  /** Java's `%d` of an int: a minus sign before the magnitude of a negative value. */
  function FormatInt(i: int): string {
    if i < 0 then "-" + NatToDecimal(-i) else NatToDecimal(i)
  }

  /** The rendering starts with a minus sign exactly for negative values, and is the
      plain numeral otherwise. */
  lemma FormatIntSign(i: int)
    ensures |FormatInt(i)| >= 1
    ensures FormatInt(i)[0] == '-' <==> i < 0
    ensures i >= 0 ==> FormatInt(i) == NatToDecimal(i)
  {
    NatToDecimalCanonical(if i < 0 then -i else i);
  }

  /** Appending a digit to a positive number appends its character to the numeral. */
  lemma NatToDecimalAppendDigit(n: nat, d: nat)
    requires n >= 1 && d < 10
    ensures NatToDecimal(10 * n + d) == NatToDecimal(n) + [DigitChar(d)]
  {
    assert (10 * n + d) / 10 == n && (10 * n + d) % 10 == d;
  }

  /** `%d` of `Integer.MIN_VALUE`. */
  lemma FormatIntMinValue(i: int)
    requires i == -0x8000_0000
    ensures FormatInt(i) == "-2147483648"
  {
    var magnitude := NatToDecimal(2147483648);
    NatToDecimalAppendDigit(2, 1);
    NatToDecimalAppendDigit(21, 4);
    NatToDecimalAppendDigit(214, 7);
    NatToDecimalAppendDigit(2147, 4);
    NatToDecimalAppendDigit(21474, 8);
    NatToDecimalAppendDigit(214748, 3);
    NatToDecimalAppendDigit(2147483, 6);
    NatToDecimalAppendDigit(21474836, 4);
    NatToDecimalAppendDigit(214748364, 8);
    assert magnitude == "2147483648";
    assert FormatInt(i) == "-" + magnitude;
  }

  /** Distinct integers are rendered differently. */
  lemma FormatIntInjective(i: int, j: int)
    ensures FormatInt(i) == FormatInt(j) ==> i == j
  {
    if FormatInt(i) == FormatInt(j) {
      FormatIntSign(i);
      FormatIntSign(j);
      if i < 0 && j < 0 {
        assert FormatInt(i)[1..] == NatToDecimal(-i);
        assert FormatInt(j)[1..] == NatToDecimal(-j);
        NatToDecimalInjective(-i, -j);
      } else if i >= 0 && j >= 0 {
        NatToDecimalInjective(i, j);
      }
    }
  }
}

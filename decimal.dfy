/** The `%d` conversion of `format_string`, which puts the push counter into
    the name of a backup file, and the reading back of such a numeral. */
module Decimal {

  predicate IsDigit(c: char)
  {
    '0' <= c <= '9'
  }

  predicate AllDigits(s: string)
  {
    forall i :: 0 <= i < |s| ==> IsDigit(s[i])
  }

  function Digit(d: nat): (c: char)
    requires d < 10
    ensures IsDigit(c) && c as int - '0' as int == d
  {
    ('0' as int + d) as char
  }

  /** The decimal numeral of `n`: digits only, most significant first. */
  function NatToDecimal(n: nat): (s: string)
    ensures |s| >= 1 && AllDigits(s)
    ensures n == 0 || s[0] != '0'
    decreases n
  {
    if n < 10 then [Digit(n)] else NatToDecimal(n / 10) + [Digit(n % 10)]
  }

  /** The number a string of digits denotes. */
  function DigitsValue(s: string): nat
    requires AllDigits(s)
    decreases |s|
  {
    if s == [] then 0
    else DigitsValue(s[..|s| - 1]) * 10 + (s[|s| - 1] as int - '0' as int)
  }

  /** A signed numeral: an optional minus sign, then at least one digit. */
  predicate IsNumeral(s: string)
  {
    if |s| >= 1 && s[0] == '-' then |s| >= 2 && AllDigits(s[1..]) else |s| >= 1 && AllDigits(s)
  }

  /** The integer a signed numeral denotes. */
  function IntValue(s: string): int
    requires IsNumeral(s)
  {
    if s[0] == '-' then -(DigitsValue(s[1..]) as int) else DigitsValue(s)
  }

  /** The form `%d` prints: no leading zero, and no minus sign before a
      lone zero. */
  predicate Canonical(s: string)
  {
    IsNumeral(s)
    && var d := if s[0] == '-' then s[1..] else s;
       d[0] != '0' || (d == "0" && s[0] != '-')
  }

  /** `%d` of an `int`: a minus sign for negative values, then the numeral of
      the magnitude. */
  function IntToDecimal(i: int): (s: string)
    ensures |s| >= 1
    ensures i < 0 <==> s[0] == '-'
    ensures i >= 0 ==> AllDigits(s)
    ensures i < 0 ==> AllDigits(s[1..])
    ensures IsNumeral(s) && Canonical(s)
  {
    if i < 0 then
      var m := NatToDecimal(-i);
      assert ("-" + m)[1..] == m;
      "-" + m
    else NatToDecimal(i)
  }

  /** Reading a numeral back gives the number it was written from. */
  lemma {:induction false} DecimalRoundTrip(n: nat)
    ensures DigitsValue(NatToDecimal(n)) == n
    decreases n
  {
    var s := NatToDecimal(n);
    if n >= 10 {
      assert s[..|s| - 1] == NatToDecimal(n / 10);
      DecimalRoundTrip(n / 10);
    }
  }

  /** Reading the `%d` numeral of an `int` back gives that `int`, of either
      sign. */
  lemma IntRoundTrip(i: int)
    ensures IntValue(IntToDecimal(i)) == i
  {
    if i < 0 {
      assert IntToDecimal(i)[1..] == NatToDecimal(-i);
      DecimalRoundTrip(-i);
    } else {
      DecimalRoundTrip(i);
    }
  }

  /** A numeral whose first digit is not `0` denotes at least 1. */
  lemma {:induction false} LeadingDigitPositive(d: string)
    requires |d| >= 1 && AllDigits(d) && d[0] != '0'
    ensures DigitsValue(d) >= 1
    decreases |d|
  {
    if |d| > 1 {
      LeadingDigitPositive(d[..|d| - 1]);
    }
  }

  /** A digit string without a leading zero is the numeral of the number it
      denotes. */
  lemma {:induction false} DigitsUnique(d: string)
    requires |d| >= 1 && AllDigits(d) && (d == "0" || d[0] != '0')
    ensures d == NatToDecimal(DigitsValue(d))
    decreases |d|
  {
    var n := DigitsValue(d);
    if |d| > 1 {
      var front := d[..|d| - 1];
      var c := d[|d| - 1] as int - '0' as int;
      LeadingDigitPositive(front);
      DigitsUnique(front);
      assert n / 10 == DigitsValue(front) && n % 10 == c;
      assert d == front + [Digit(c)];
    }
  }

  /** A canonical numeral is `%d` of the integer it denotes: the form `%d`
      prints, with the value it prints, fixes the string. */
  lemma CanonicalUnique(s: string)
    requires Canonical(s)
    ensures s == IntToDecimal(IntValue(s))
  {
    if s[0] == '-' {
      var d := s[1..];
      LeadingDigitPositive(d);
      DigitsUnique(d);
      assert s == "-" + d;
    } else {
      DigitsUnique(s);
    }
  }

  /** Different numbers are written as different strings. */
  lemma IntToDecimalInjective(a: int, b: int)
    requires IntToDecimal(a) == IntToDecimal(b)
    ensures a == b
  {
    IntRoundTrip(a);
    IntRoundTrip(b);
  }
}

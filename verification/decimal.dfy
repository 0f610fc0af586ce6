/**
 * Decimal text of integers: what Go's `fmt.Sprint` writes for an `int`
 * (an optional '-' and the digits, without leading zeros), and a strict
 * reader for the integer form of section 6 of RFC 8259 (JSON numbers without
 * fraction or exponent) that undoes it.
 */
module Decimal {
  import opened Wrappers

  predicate IsDigit(c: char) {
    '0' <= c <= '9'
  }

  predicate AllDigits(s: string) {
    forall i :: 0 <= i < |s| ==> IsDigit(s[i])
  }

  function DigitChar(d: nat): (c: char)
    requires d < 10
    ensures IsDigit(c)
  {
    (('0' as int) + d) as char
  }

  function DigitValue(c: char): (d: nat)
    requires IsDigit(c)
    ensures d < 10 && DigitChar(d) == c
  {
    (c as int) - ('0' as int)
  }

  /** Decimal digits of `n`, most significant first, no leading zero. */
  function NatString(n: nat): (r: string)
    ensures |r| >= 1 && AllDigits(r)
    ensures r[0] == '0' <==> n == 0
  {
    if n < 10 then [DigitChar(n)]
    else NatString(n / 10) + [DigitChar(n % 10)]
  }

  /** `fmt.Sprint(n)` for an integer `n`. */
  function DecimalString(n: int): (r: string)
  {
    if n < 0 then "-" + NatString(-n) else NatString(n)
  }

  /** The number a string of digits denotes. */
  function DigitsValue(s: string): nat
    requires AllDigits(s)
  {
    if s == [] then 0
    else DigitsValue(s[..|s| - 1]) * 10 + DigitValue(s[|s| - 1])
  }

  /** Reads a non-negative JSON integer: one or more digits, no leading zero unless it is "0". */
  function ParseNat(s: string): (r: Option<nat>)
    ensures r.Some? <==> |s| >= 1 && AllDigits(s) && (|s| > 1 ==> s[0] != '0')
  {
    if |s| >= 1 && AllDigits(s) && (|s| > 1 ==> s[0] != '0') then Some(DigitsValue(s)) else None
  }

  /** Reads a JSON integer: an optional '-' followed by what `ParseNat` accepts. */
  function ParseInt(s: string): (r: Option<int>)
    ensures r.Some? ==> |s| >= 1 && forall i :: 0 < i < |s| ==> IsDigit(s[i])
  {
    if |s| >= 1 && s[0] == '-' then
      match ParseNat(s[1..])
      case None => None
      case Some(n) => var m: int := n; Some(-m)
    else
      match ParseNat(s)
      case None => None
      case Some(n) => Some(n)
  }

  lemma {:induction false} NatStringValue(n: nat)
    ensures DigitsValue(NatString(n)) == n
  {
    if n >= 10 {
      var s := NatString(n);
      assert s[..|s| - 1] == NatString(n / 10);
      NatStringValue(n / 10);
    }
  }

  /** Reading back what `fmt.Sprint` wrote gives the same integer. */
  lemma {:induction false} DecimalRoundTrip(n: int)
    ensures ParseInt(DecimalString(n)) == Some(n)
  {
    var s := DecimalString(n);
    if n < 0 {
      NatStringValue(-n);
      assert s[0] == '-' && s[1..] == NatString(-n);
      assert ParseNat(s[1..]) == Some(-n);
    } else {
      NatStringValue(n);
      assert s[0] != '-' by { assert IsDigit(s[0]); }
      assert ParseNat(s) == Some(n);
    }
  }

  /** A string of digits without a leading zero denotes at least 1, or is a lone digit. */
  lemma {:induction false} LeadingDigitPositive(s: string)
    requires |s| >= 1 && AllDigits(s) && s[0] != '0'
    ensures DigitsValue(s) >= 1
  {
    if |s| > 1 {
      LeadingDigitPositive(s[..|s| - 1]);
    }
  }

  /** The other direction: every string `ParseNat` accepts is exactly how `fmt.Sprint` writes its value. */
  lemma {:induction false} ParseNatCanonical(s: string)
    requires ParseNat(s).Some?
    ensures NatString(ParseNat(s).value) == s
  {
    var n := DigitsValue(s);
    if |s| > 1 {
      var init := s[..|s| - 1];
      var d := DigitValue(s[|s| - 1]);
      LeadingDigitPositive(init);
      ParseNatCanonical(init);
      assert n / 10 == DigitsValue(init) && n % 10 == d;
      assert NatString(n) == NatString(n / 10) + [DigitChar(n % 10)];
      assert init + [s[|s| - 1]] == s;
    } else {
      assert s[..|s| - 1] == [];
      assert DigitsValue(s[..|s| - 1]) == 0;
      assert s == [DigitChar(DigitValue(s[0]))];
    }
  }

  /** Decimal text never contains a character outside '-' and the digits. */
  lemma {:induction false} DecimalChars(n: int, c: char)
    requires c != '-' && !IsDigit(c)
    ensures c !in DecimalString(n)
  {
    if n < 0 {
      assert DecimalString(n) == ['-'] + NatString(-n);
    }
  }
}

/**
 * Decimal text of integers: JavaScript's conversion of an integer to a string
 * (as in a template literal) and the part of `Number(text)` that reads such text back.
 */
module Decimal {
  import opened Wrappers

  predicate IsDigit(c: char) { '0' <= c <= '9' }

  predicate AllDigits(s: string) { forall i :: 0 <= i < |s| ==> IsDigit(s[i]) }

  function DigitValue(c: char): (d: nat)
    requires IsDigit(c)
    ensures d < 10
  {
    c as int - '0' as int
  }

  function DigitChar(d: nat): (c: char)
    requires d < 10
    ensures IsDigit(c) && DigitValue(c) == d
  {
    ('0' as int + d) as char
  }

  /** The number a string of decimal digits denotes (leading zeros allowed, "" is 0). */
  function DigitsValue(s: string): nat
    requires AllDigits(s)
    decreases |s|
  {
    if s == [] then 0 else DigitsValue(s[..|s| - 1]) * 10 + DigitValue(s[|s| - 1])
  }

  /** Number of decimal digits of n in its shortest form. */
  function NumDigits(n: nat): (k: nat)
    ensures k >= 1
  {
    if n < 10 then 1 else NumDigits(n / 10) + 1
  }

  /** The decimal text of a natural number, with no leading zero; reads back as n. */
  function NatToString(n: nat): (s: string)
    ensures |s| == NumDigits(n) && AllDigits(s)
    ensures DigitsValue(s) == n
    ensures s[0] == '0' ==> n == 0 && s == "0"
    decreases n
  {
    if n < 10 then [DigitChar(n)]
    else
      var prefix := NatToString(n / 10);
      assert (prefix + [DigitChar(n % 10)])[..|prefix|] == prefix;
      prefix + [DigitChar(n % 10)]
  }

  /** Different natural numbers have different decimal texts. */
  lemma NatToStringInjective(a: nat, b: nat)
    ensures NatToString(a) == NatToString(b) <==> a == b
  {
  }

  /** `${i}` for an integer i: a minus sign before the digits of a negative number. */
  function IntToString(i: int): (s: string)
    ensures s != [] && s[0] != '-' ==> i >= 0
  {
    if i < 0 then "-" + NatToString(-i) else NatToString(i)
  }

  /**
   * `Number(s)` on the texts this model needs: "" is 0, an optional minus sign and
   * one or more digits is that integer, anything else is NaN (None).
   */
  function ParseNumber(s: string): Option<int>
  {
    if s == [] then Some(0)
    else if AllDigits(s) then Some(DigitsValue(s))
    else if s[0] == '-' && |s| > 1 && AllDigits(s[1..]) then Some(-(DigitsValue(s[1..]) as int))
    else None
  }

  /** Reading back the decimal text of any integer gives that integer. */
  lemma ParseIntToString(i: int)
    ensures ParseNumber(IntToString(i)) == Some(i)
  {
    if i < 0 {
      var s := IntToString(i);
      assert s[1..] == NatToString(-i);
      assert !AllDigits(s) by { assert !IsDigit(s[0]); }
    }
  }

  /** Distinct integers have distinct decimal texts. */
  lemma IntToStringInjective(i: int, j: int)
    requires IntToString(i) == IntToString(j)
    ensures i == j
  {
    ParseIntToString(i);
    ParseIntToString(j);
  }

  /** The decimal text of an integer never contains the letter W. */
  lemma IntToStringHasNoW(i: int)
    ensures forall k :: 0 <= k < |IntToString(i)| ==> IntToString(i)[k] != 'W'
  {
    if i < 0 {
      var s := IntToString(i);
      forall k | 0 <= k < |s| ensures s[k] != 'W' {
        if k > 0 { assert s[k] == NatToString(-i)[k - 1]; }
      }
    }
  }
}

/**
 Decimal rendering of natural numbers, as Python's f-string `{n}` does for a
 non-negative `int`, together with the reading functions that recover a
 number from the text it is embedded in.
 */
module Decimal {
  import opened Ascii

  predicate AllDigits(s: string) {
    forall i :: 0 <= i < |s| ==> IsDigit(s[i])
  }

  function DigitChar(d: nat): (c: char)
    requires d < 10
    ensures IsDigit(c)
  {
    ('0' as int + d) as char
  }

  function DigitValue(c: char): (d: nat)
    requires IsDigit(c)
    ensures d < 10 && DigitChar(d) == c
  {
    c as int - '0' as int
  }

  /** The number a string of decimal digits denotes (most significant first). */
  function Value(s: string): nat
    requires AllDigits(s)
  {
    if |s| == 0 then 0 else Value(s[..|s| - 1]) * 10 + DigitValue(s[|s| - 1])
  }

  /** The decimal text of `n`: non-empty, all digits, no leading zero. */
  function Digits(n: nat): (s: string)
    ensures |s| > 0 && AllDigits(s)
    ensures |s| == 1 || s[0] != '0'
  {
    if n < 10 then [DigitChar(n)] else Digits(n / 10) + [DigitChar(n % 10)]
  }

  /** Reading back the decimal text of `n` gives `n`. */
  lemma {:induction false} ValueOfDigits(n: nat)
    ensures Value(Digits(n)) == n
  {
    var s := Digits(n);
    if n >= 10 {
      assert s[..|s| - 1] == Digits(n / 10);
      ValueOfDigits(n / 10);
    }
  }

  /** Distinct numbers have distinct decimal texts. */
  lemma DigitsInjective(m: nat, n: nat)
    ensures Digits(m) == Digits(n) ==> m == n
  {
    ValueOfDigits(m);
    ValueOfDigits(n);
  }

  /** The longest prefix of `s` made of digits. */
  function LeadingNumber(s: string): (d: string)
    ensures AllDigits(d) && |d| <= |s|
  {
    if |s| == 0 || !IsDigit(s[0]) then "" else [s[0]] + LeadingNumber(s[1..])
  }

  /** The longest suffix of `s` made of digits. */
  function TrailingNumber(s: string): (d: string)
    ensures AllDigits(d) && |d| <= |s|
  {
    if |s| == 0 || !IsDigit(s[|s| - 1]) then "" else TrailingNumber(s[..|s| - 1]) + [s[|s| - 1]]
  }

  /** A digit string followed by text that does not start with a digit is
      read back whole from the front. */
  lemma {:induction false} LeadingNumberOf(d: string, t: string)
    requires AllDigits(d)
    requires |t| == 0 || !IsDigit(t[0])
    ensures LeadingNumber(d + t) == d
  {
    if |d| > 0 {
      assert (d + t)[1..] == d[1..] + t;
      LeadingNumberOf(d[1..], t);
    } else {
      assert d + t == t;
    }
  }

  /** A digit string preceded by text that does not end with a digit is read
      back whole from the back. */
  lemma {:induction false} TrailingNumberOf(t: string, d: string)
    requires AllDigits(d)
    requires |t| == 0 || !IsDigit(t[|t| - 1])
    ensures TrailingNumber(t + d) == d
  {
    if |d| > 0 {
      assert (t + d)[..|t + d| - 1] == t + d[..|d| - 1];
      TrailingNumberOf(t, d[..|d| - 1]);
    } else {
      assert t + d == t;
    }
  }
}

/**
 * Decimal text of non-negative integers, as JavaScript's `String(n)` writes
 * it, left padding as `String.prototype.padStart` does it, and the reverse
 * reading of a run of digits, used to state what padded frame numbers mean.
 */
module Decimal {

  predicate IsDigit(c: char) {
    '0' <= c <= '9'
  }

  predicate AllDigits(s: string) {
    forall k :: 0 <= k < |s| ==> IsDigit(s[k])
  }

  function DigitChar(d: nat): (c: char)
    requires d < 10
    ensures IsDigit(c) && DigitValue(c) == d
  {
    (48 + d) as char
  }

  function DigitValue(c: char): (d: nat)
    requires IsDigit(c)
    ensures d < 10
  {
    c as int - 48
  }

  function Pow10(k: nat): (p: nat)
    ensures p >= 1
  {
    if k == 0 then 1 else 10 * Pow10(k - 1)
  }

  /** `String(n)` for a non-negative integer: its digits, most significant first, without leading zeros. */
  function DecimalString(n: nat): (s: string)
    ensures 1 <= |s| && AllDigits(s)
    ensures |s| > 1 ==> s[0] != '0'
  {
    if n < 10 then [DigitChar(n)] else DecimalString(n / 10) + [DigitChar(n % 10)]
  }

  /** The value of a run of decimal digits (leading zeros allowed). */
  function ParseDecimal(s: string): (n: nat)
    requires AllDigits(s)
    ensures n < Pow10(|s|)
  {
    if s == [] then 0 else 10 * ParseDecimal(s[..|s| - 1]) + DigitValue(s[|s| - 1])
  }

  /** `s.padStart(width, fill)`: prefix copies of `fill` up to `width`; never truncates. */
  function PadStart(s: string, width: nat, fill: char): (r: string)
    ensures |r| == if |s| < width then width else |s|
    ensures r[|r| - |s|..] == s
    ensures forall k :: 0 <= k < |r| - |s| ==> r[k] == fill
  {
    if |s| < width then seq(width - |s|, _ => fill) + s else s
  }

  /** Reading back the digits `String(n)` writes gives `n`. */
  lemma {:induction false} DecimalRoundTrip(n: nat)
    ensures ParseDecimal(DecimalString(n)) == n
  {
    if n >= 10 {
      var s := DecimalString(n);
      assert s[..|s| - 1] == DecimalString(n / 10);
      DecimalRoundTrip(n / 10);
    }
  }

  lemma {:induction false} Pow10Monotone(i: nat, j: nat)
    requires i <= j
    ensures Pow10(i) <= Pow10(j)
  {
    if i < j {
      Pow10Monotone(i, j - 1);
    }
  }

  /** A digit run without a leading zero is at least 10^(length - 1). */
  lemma {:induction false} ParseLowerBound(s: string)
    requires AllDigits(s) && |s| >= 1 && s[0] != '0'
    ensures ParseDecimal(s) >= Pow10(|s| - 1)
  {
    if |s| > 1 {
      var t := s[..|s| - 1];
      assert t[0] == s[0];
      ParseLowerBound(t);
    }
  }

  /** `String(n)` has at most `k` digits exactly when `n < 10^k`. */
  lemma {:induction false} DecimalLength(n: nat, k: nat)
    requires k >= 1
    ensures |DecimalString(n)| <= k <==> n < Pow10(k)
  {
    var s := DecimalString(n);
    DecimalRoundTrip(n);
    if |s| <= k {
      Pow10Monotone(|s|, k);
    } else if |s| > 1 {
      ParseLowerBound(s);
      Pow10Monotone(k, |s| - 1);
    }
  }

  lemma {:induction false} ZerosParseToZero(z: string)
    requires forall k :: 0 <= k < |z| ==> z[k] == '0'
    ensures AllDigits(z) && ParseDecimal(z) == 0
  {
    if z != [] {
      ZerosParseToZero(z[..|z| - 1]);
    }
  }

  /** Leading zeros do not change the value of a digit run. */
  lemma {:induction false} LeadingZeros(z: string, s: string)
    requires forall k :: 0 <= k < |z| ==> z[k] == '0'
    requires AllDigits(s)
    ensures AllDigits(z + s) && ParseDecimal(z + s) == ParseDecimal(s)
  {
    ZerosParseToZero(z);
    if s == [] {
      assert z + s == z;
    } else {
      var t := s[..|s| - 1];
      assert (z + s)[..|z + s| - 1] == z + t;
      LeadingZeros(z, t);
    }
  }

  /**
   * `String(n).padStart(width, '0')` is a digit run that reads back as `n`;
   * it is exactly `width` long when `n` has at most `width` digits and is
   * `String(n)` itself otherwise.
   */
  lemma {:induction false} PaddedDecimal(n: nat, width: nat)
    requires width >= 1
    ensures AllDigits(PadStart(DecimalString(n), width, '0'))
    ensures ParseDecimal(PadStart(DecimalString(n), width, '0')) == n
    ensures n < Pow10(width) ==> |PadStart(DecimalString(n), width, '0')| == width
    ensures n >= Pow10(width) ==> PadStart(DecimalString(n), width, '0') == DecimalString(n)
  {
    var s := DecimalString(n);
    DecimalRoundTrip(n);
    DecimalLength(n, width);
    var p := PadStart(s, width, '0');
    if |s| < width {
      var z := seq(width - |s|, _ => '0');
      assert p == z + s;
      LeadingZeros(z, s);
    } else {
      assert p == s;
    }
  }
}

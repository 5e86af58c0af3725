/** Decimal rendering of whole numbers, as JavaScript's `toFixed(0)` and
    template interpolation produce it for integer-valued numbers. */
module Decimal {

  predicate IsDigit(c: char) {
    '0' <= c <= '9'
  }

  predicate AllDigits(s: string) {
    forall i :: 0 <= i < |s| ==> IsDigit(s[i])
  }

  function DigitChar(d: nat): (c: char)
    requires d < 10
    ensures IsDigit(c) && c as int - '0' as int == d
  {
    (('0' as int) + d) as char
  }

  function DigitValue(c: char): nat
    requires IsDigit(c)
  {
    c as int - '0' as int
  }

  /** The shortest decimal numeral of n: at least one digit, no leading zero. */
  function NatToDecimal(n: nat): (s: string)
    ensures |s| >= 1 && AllDigits(s)
    ensures s[0] == '0' ==> n == 0
    decreases n
  {
    if n < 10 then [DigitChar(n)] else NatToDecimal(n / 10) + [DigitChar(n % 10)]
  }

  /** The value a string of digits denotes, read most significant digit first. */
  function DecimalValue(s: string): nat
    requires AllDigits(s)
  {
    if s == [] then 0 else 10 * DecimalValue(s[..|s| - 1]) + DigitValue(s[|s| - 1])
  }

  /** A number rendered with a leading '-' when negative. */
  function IntToDecimal(n: int): string {
    if n < 0 then "-" + NatToDecimal(-n) else NatToDecimal(n)
  }

  /** Reads back a numeral produced by IntToDecimal. */
  function ParseInt(s: string): int
    requires AllDigits(s) || (|s| > 0 && s[0] == '-' && AllDigits(s[1..]))
  {
    if |s| > 0 && s[0] == '-' then -(DecimalValue(s[1..]) as int) else DecimalValue(s)
  }

  lemma {:induction false} DecimalRoundTrip(n: nat)
    ensures DecimalValue(NatToDecimal(n)) == n
    decreases n
  {
    if n >= 10 {
      var s := NatToDecimal(n);
      assert s[..|s| - 1] == NatToDecimal(n / 10);
      DecimalRoundTrip(n / 10);
    }
  }

  /** Distinct numbers render differently. */
  lemma DecimalInjective(m: nat, n: nat)
    ensures NatToDecimal(m) == NatToDecimal(n) ==> m == n
  {
    DecimalRoundTrip(m);
    DecimalRoundTrip(n);
  }

  lemma IntRoundTrip(n: int)
    ensures |IntToDecimal(n)| >= 1
    ensures n >= 0 ==> AllDigits(IntToDecimal(n))
    ensures n < 0 ==> IntToDecimal(n)[0] == '-' && AllDigits(IntToDecimal(n)[1..])
    ensures ParseInt(IntToDecimal(n)) == n
  {
    if n < 0 {
      var s := IntToDecimal(n);
      assert s[1..] == NatToDecimal(-n);
      DecimalRoundTrip(-n);
    } else {
      DecimalRoundTrip(n);
    }
  }

  /** A number of at least 10^k has more than k digits. */
  lemma {:induction false} DecimalLength(n: nat, k: nat)
    requires n >= Power10(k)
    ensures |NatToDecimal(n)| > k
    decreases k
  {
    if k > 0 {
      assert n >= 10;
      assert n / 10 >= Power10(k - 1);
      DecimalLength(n / 10, k - 1);
    }
  }

  function Power10(k: nat): (p: nat)
    ensures p >= 1
  {
    if k == 0 then 1 else 10 * Power10(k - 1)
  }

  /** The last k digits of a numeral are its low part: the value is the
      leading digits times 10^k plus the value of the last k digits. */
  lemma {:induction false} DecimalSplit(s: string, k: nat)
    requires AllDigits(s) && k <= |s|
    ensures AllDigits(s[..|s| - k]) && AllDigits(s[|s| - k..])
    ensures DecimalValue(s) == DecimalValue(s[..|s| - k]) * Power10(k) + DecimalValue(s[|s| - k..])
    ensures DecimalValue(s[|s| - k..]) < Power10(k)
    decreases k
  {
    if k == 0 {
      assert s[..|s|] == s;
      assert s[|s|..] == [];
    } else {
      var t := s[..|s| - 1];
      DecimalSplit(t, k - 1);
      var hi, lo := t[..|t| - (k - 1)], t[|t| - (k - 1)..];
      var u := s[|s| - k..];
      assert hi == s[..|s| - k];
      assert u == lo + [s[|s| - 1]];
      LastDigit(lo, s[|s| - 1]);
      ShiftSplit(DecimalValue(hi), DecimalValue(lo), DigitValue(s[|s| - 1]), Power10(k - 1));
    }
  }

  /** Appending a digit multiplies by ten and adds it. */
  lemma LastDigit(s: string, c: char)
    requires AllDigits(s) && IsDigit(c)
    ensures AllDigits(s + [c]) && DecimalValue(s + [c]) == 10 * DecimalValue(s) + DigitValue(c)
  {
    assert (s + [c])[..|s|] == s;
  }

  lemma ShiftSplit(hi: nat, lo: nat, d: nat, p: nat)
    requires d < 10 && lo < p
    ensures 10 * (hi * p + lo) + d == hi * (10 * p) + (10 * lo + d)
    ensures 10 * lo + d < 10 * p
  {
  }
}

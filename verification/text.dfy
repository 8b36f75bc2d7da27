/** Character-level building blocks of the rendered lines: runs of one
    character (the `StringBuilder` loops) and decimal formatting (string
    concatenation of an `int` and `String.format("%02d", n)`), together with
    a decimal reader that serves as their inverse. */
module Text {

  /** `n` copies of `c`. A count of zero or less yields nothing, as a Java
      `for (i = a; i < b; i++)` loop does when `b <= a`. */
  function Repeat(c: char, n: int): (r: string)
    ensures |r| == if n < 0 then 0 else n
    ensures forall i :: 0 <= i < |r| ==> r[i] == c
    decreases n
  {
    if n <= 0 then [] else [c] + Repeat(c, n - 1)
  }

  predicate IsDigit(c: char) {
    '0' <= c <= '9'
  }

  predicate AllDigits(s: string) {
    forall i :: 0 <= i < |s| ==> IsDigit(s[i])
  }

  function DigitChar(d: nat): (c: char)
    requires d < 10
    ensures IsDigit(c)
    ensures DigitValue(c) == d
  {
    "0123456789"[d]
  }

  function DigitValue(c: char): (d: nat)
    requires IsDigit(c)
    ensures d < 10
  {
    (c as int) - ('0' as int)
  }

  /** The decimal representation of `n`, without sign or leading zeros. */
  function Decimal(n: nat): (r: string)
    ensures 1 <= |r|
    ensures AllDigits(r)
    ensures |r| == 1 <==> n < 10
    ensures |r| <= 2 <==> n < 100
    ensures |r| > 1 ==> r[0] != '0'
    decreases n
  {
    if n < 10 then [DigitChar(n)] else Decimal(n / 10) + [DigitChar(n % 10)]
  }

  /** `String.format("%02d", n)` for a non-negative `n`: at least two
      digits, padded on the left with '0'. */
  function Pad2(n: nat): (r: string)
    ensures AllDigits(r)
    ensures |r| >= 2
    ensures |r| == 2 <==> n < 100
    ensures |r| > 2 ==> r[0] != '0'
  {
    if n < 10 then "0" + Decimal(n) else Decimal(n)
  }

  /** Reads a string of decimal digits back as a number; leading zeros are
      allowed, the empty string reads as 0. */
  function ParseDecimal(s: string): nat
    requires AllDigits(s)
    decreases |s|
  {
    if |s| == 0 then 0 else 10 * ParseDecimal(s[..|s| - 1]) + DigitValue(s[|s| - 1])
  }

  /** `ParseDecimal` inverts `Decimal`. */
  lemma {:induction false} DecimalRoundTrip(n: nat)
    ensures ParseDecimal(Decimal(n)) == n
    decreases n
  {
    if n >= 10 {
      var r := Decimal(n);
      assert r[..|r| - 1] == Decimal(n / 10);
      DecimalRoundTrip(n / 10);
    }
  }

  /** A leading '0' does not change the value read. */
  lemma {:induction false} ParseLeadingZero(s: string)
    requires AllDigits(s)
    ensures ParseDecimal("0" + s) == ParseDecimal(s)
    decreases |s|
  {
    if |s| > 0 {
      var t := "0" + s;
      assert t[..|t| - 1] == "0" + s[..|s| - 1];
      ParseLeadingZero(s[..|s| - 1]);
    }
  }

  /** `ParseDecimal` inverts `Pad2`: the zero padding loses nothing. */
  lemma Pad2RoundTrip(n: nat)
    ensures ParseDecimal(Pad2(n)) == n
  {
    DecimalRoundTrip(n);
    if n < 10 {
      ParseLeadingZero(Decimal(n));
    }
  }

  /** `Pad2` is injective, so a rendered two-digit field identifies its value. */
  lemma Pad2Injective(a: nat, b: nat)
    requires Pad2(a) == Pad2(b)
    ensures a == b
  {
    Pad2RoundTrip(a);
    Pad2RoundTrip(b);
  }

  /** A line written as four pieces side by side can be read back piece by
      piece. */
  lemma SplitFour(line: string, a: string, b: string, c: string, d: string)
    requires line == a + b + c + d
    ensures |line| == |a| + |b| + |c| + |d|
    ensures line[..|a|] == a
    ensures line[|a|..|a| + |b|] == b
    ensures line[|a| + |b|..|a| + |b| + |c|] == c
    ensures line[|a| + |b| + |c|..] == d
  {
    assert line[..|a|] == a;
    assert line[|a|..|a| + |b|] == b;
    assert line[|a| + |b|..|a| + |b| + |c|] == c;
  }
}

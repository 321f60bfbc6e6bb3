/** Decimal numerals as the source prints them: `str(n)` and the zero-padded
    `f"{n:08d}"`, with the reading `int(text)`. */
module Digits {
  import opened Wrappers

  type Digit = d: nat | d < 10

  function DigitChar(d: Digit): char {
    ('0' as int + d) as char
  }

  function AsciiDigit(c: char): Option<Digit> {
    if '0' <= c <= '9' then Some((c as int - '0' as int) as Digit) else None
  }

  function Numeral(n: nat): (s: string)
    ensures |s| > 0
    ensures forall c | c in s :: '0' <= c <= '9'
  {
    if n < 10 then [DigitChar(n)] else Numeral(n / 10) + [DigitChar(n % 10)]
  }

  function Zeros(k: nat): (s: string)
    ensures |s| == k && forall c | c in s :: c == '0'
  {
    seq(k, _ => '0')
  }

  /** `f"{n:0<width>d}"` */
  function Padded(n: nat, width: nat): (s: string)
    ensures |s| >= width
    ensures forall c | c in s :: '0' <= c <= '9'
  {
    var s := Numeral(n);
    if |s| >= width then s else Zeros(width - |s|) + s
  }

  /** `int(s)`, for a reading of single digits that may know more scripts than ASCII. */
  function Number(digit: char -> Option<Digit>, s: string): Option<nat> {
    if s == [] then None else Fold(digit, s)
  }

  function Fold(digit: char -> Option<Digit>, s: string): (r: Option<nat>)
    ensures r.None? <==> exists c :: c in s && digit(c).None?
  {
    if s == [] then Some(0)
    else
      var front := Fold(digit, s[..|s| - 1]);
      assert s == s[..|s| - 1] + [s[|s| - 1]];
      if front.None? || digit(s[|s| - 1]).None? then None
      else Some(10 * front.value + digit(s[|s| - 1]).value)
  }

  function Pow10(k: nat): (p: nat)
    ensures p > 0
  {
    if k == 0 then 1 else 10 * Pow10(k - 1)
  }

  ghost predicate ReadsAscii(digit: char -> Option<Digit>) {
    forall d: Digit :: digit(DigitChar(d)) == Some(d)
  }

  lemma {:induction false} FoldNumeral(digit: char -> Option<Digit>, k: nat, n: nat)
    requires ReadsAscii(digit)
    ensures Fold(digit, Zeros(k) + Numeral(n)) == Some(n)
    decreases n
  {
    hide Fold, Zeros;
    var last: Digit := n % 10;
    if n < 10 {
      FoldZeros(digit, k);
      FoldSnoc(digit, Zeros(k), last);
      assert Zeros(k) + Numeral(n) == Zeros(k) + [DigitChar(last)];
    } else {
      FoldNumeral(digit, k, n / 10);
      FoldSnoc(digit, Zeros(k) + Numeral(n / 10), last);
      assert Zeros(k) + Numeral(n) == Zeros(k) + Numeral(n / 10) + [DigitChar(last)];
    }
  }

  lemma FoldSnoc(digit: char -> Option<Digit>, front: string, d: Digit)
    requires ReadsAscii(digit)
    ensures Fold(digit, front).Some? ==> Fold(digit, front + [DigitChar(d)]) == Some(10 * Fold(digit, front).value + d)
  {
    hide DigitChar;
    assert (front + [DigitChar(d)])[..|front|] == front;
  }

  lemma {:induction false} FoldZeros(digit: char -> Option<Digit>, k: nat)
    requires ReadsAscii(digit)
    ensures Fold(digit, Zeros(k)) == Some(0)
  {
    if k > 0 {
      assert DigitChar(0) == '0';
      assert Zeros(k)[..k - 1] == Zeros(k - 1);
      FoldZeros(digit, k - 1);
    }
  }

  /** Reading back a padded numeral gives the number, whatever the width. */
  lemma NumberOfPadded(digit: char -> Option<Digit>, n: nat, width: nat)
    requires ReadsAscii(digit)
    ensures Number(digit, Padded(n, width)) == Some(n)
  {
    hide Fold, Numeral, Zeros, ReadsAscii;
    var s := Numeral(n);
    var k := if |s| >= width then 0 else width - |s|;
    assert Zeros(0) + s == s;
    FoldNumeral(digit, k, n);
    assert Padded(n, width) == Zeros(k) + s;
  }

  lemma PaddedInjective(n: nat, m: nat, width: nat)
    requires Padded(n, width) == Padded(m, width)
    ensures n == m
  {
    NumberOfPadded(AsciiDigit, n, width);
    NumberOfPadded(AsciiDigit, m, width);
  }

  lemma {:induction false} NumeralLength(n: nat, k: nat)
    requires k > 0
    ensures |Numeral(n)| <= k <==> n < Pow10(k)
    decreases n
  {
    if n >= 10 {
      if k == 1 {
        assert Pow10(1) == 10 * Pow10(0);
      } else {
        NumeralLength(n / 10, k - 1);
        assert n < 10 * Pow10(k - 1) <==> n / 10 < Pow10(k - 1);
      }
    } else {
      assert Pow10(k) == 10 * Pow10(k - 1);
    }
  }

  lemma {:induction false} FoldBound(digit: char -> Option<Digit>, s: string)
    ensures Fold(digit, s).Some? ==> Fold(digit, s).value < Pow10(|s|)
  {
    if s != [] {
      FoldBound(digit, s[..|s| - 1]);
    }
  }

  lemma AsciiInjective(digit: char -> Option<Digit>, a: char, b: char)
    requires forall c :: digit(c) == AsciiDigit(c)
    ensures digit(a).Some? && digit(a) == digit(b) ==> a == b
  {
  }

  /** ASCII texts of one length that read alike are alike. */
  lemma {:induction false} FoldInjective(digit: char -> Option<Digit>, a: string, b: string)
    requires (forall c :: digit(c) == AsciiDigit(c)) && |a| == |b|
    requires Fold(digit, a).Some? && Fold(digit, a) == Fold(digit, b)
    ensures a == b
  {
    hide AsciiDigit;
    if a != [] {
      var k := |a| - 1;
      AsciiInjective(digit, a[k], b[k]);
      FoldInjective(digit, a[..k], b[..k]);
      assert a == a[..k] + [a[k]] && b == b[..k] + [b[k]];
    }
  }
}

/** Decimal numerals of natural numbers: the digit strings `toFixed(0)`
    produces for a non-negative whole quotient, and their values. */
module Decimal {

  predicate IsDigit(c: char) {
    '0' <= c <= '9'
  }

  predicate AllDigits(s: string) {
    forall i :: 0 <= i < |s| ==> IsDigit(s[i])
  }

  function DigitChar(d: nat): (c: char)
    requires d < 10
    ensures IsDigit(c)
  {
    ('0' as int + d) as char
  }

  function DigitValue(c: char): (d: nat)
    requires IsDigit(c)
    ensures d < 10
  {
    c as int - '0' as int
  }

  /** The shortest decimal numeral of `n` (no leading zeros; "0" for zero). */
  function Digits(n: nat): (s: string)
    ensures 0 < |s| && AllDigits(s)
    ensures n < 10 ==> |s| == 1
    ensures n < 100 ==> |s| <= 2
    ensures n < 1000 ==> |s| <= 3
    ensures n >= 10 ==> s[0] != '0'
  {
    if n < 10 then [DigitChar(n)] else Digits(n / 10) + [DigitChar(n % 10)]
  }

  /** The number a digit string denotes (leading zeros allowed). */
  function ValueOf(s: string): nat
    requires AllDigits(s)
  {
    if |s| == 0 then 0 else ValueOf(s[..|s| - 1]) * 10 + DigitValue(s[|s| - 1])
  }

  /** Reading back a numeral gives the number it was written from. */
  lemma {:induction false} DigitsRoundTrip(n: nat)
    ensures ValueOf(Digits(n)) == n
  {
    if n >= 10 {
      DigitsRoundTrip(n / 10);
      var s := Digits(n);
      assert s[..|s| - 1] == Digits(n / 10);
    }
  }

  /** Exactly three digits, zero-padded: the groups after the first comma. */
  function Pad3(n: nat): (s: string)
    requires n < 1000
    ensures |s| == 3 && AllDigits(s)
    ensures ValueOf(s) == n
  {
    var a, b, c := n / 100, n / 10 % 10, n % 10;
    var s := [DigitChar(a), DigitChar(b), DigitChar(c)];
    assert DigitValue(s[0]) == a && DigitValue(s[1]) == b && DigitValue(s[2]) == c;
    assert s[..2][..1] == s[..1] && s[..1][..0] == [];
    assert ValueOf(s[..1]) == a;
    assert ValueOf(s[..2]) == a * 10 + b;
    assert ValueOf(s) == (a * 10 + b) * 10 + c;
    assert n / 10 == a * 10 + b;
    s
  }

  /** A numeral as `Digits` writes it: non-empty, and no leading zero
      unless the numeral is "0" itself. */
  predicate Canonical(s: string) {
    0 < |s| && AllDigits(s) && (|s| == 1 || s[0] != '0')
  }

  function Pow10(k: nat): (p: nat)
    ensures p >= 1
  {
    if k == 0 then 1 else 10 * Pow10(k - 1)
  }

  /** A numeral of `k` digits denotes less than 10^k. */
  lemma {:induction false} ValueOfBound(s: string)
    requires AllDigits(s)
    ensures ValueOf(s) < Pow10(|s|)
  {
    if |s| > 0 {
      ValueOfBound(s[..|s| - 1]);
    }
  }

  /** A numeral whose first digit is not '0' denotes at least 1. */
  lemma {:induction false} ValueOfLeadingNonZero(s: string)
    requires 0 < |s| && AllDigits(s) && s[0] != '0'
    ensures ValueOf(s) >= 1
  {
    if |s| > 1 {
      ValueOfLeadingNonZero(s[..|s| - 1]);
    }
  }

  /** `Digits` is the only canonical numeral of a number: a canonical
      numeral is `Digits` of its own value. */
  lemma {:induction false} CanonicalIsDigits(s: string)
    requires Canonical(s)
    ensures s == Digits(ValueOf(s))
  {
    var c := s[|s| - 1];
    DigitCharOfValue(c);
    if |s| > 1 {
      var init := s[..|s| - 1];
      assert Canonical(init);
      CanonicalIsDigits(init);
      ValueOfLeadingNonZero(init);
      var v := ValueOf(s);
      assert v == ValueOf(init) * 10 + DigitValue(c);
      assert v / 10 == ValueOf(init) && v % 10 == DigitValue(c);
      assert s == init + [c];
    }
  }

  /** `Pad3` is the only three-digit numeral of a number below 1000. */
  lemma Pad3Unique(t: string)
    requires |t| == 3 && AllDigits(t)
    ensures ValueOf(t) < 1000
    ensures t == Pad3(ValueOf(t))
  {
    var a, b, c := DigitValue(t[0]), DigitValue(t[1]), DigitValue(t[2]);
    ThreeDigitValue(t);
    SplitThree(a, b, c);
    DigitCharOfValue(t[0]);
    DigitCharOfValue(t[1]);
    DigitCharOfValue(t[2]);
  }

  lemma ThreeDigitValue(t: string)
    requires |t| == 3 && AllDigits(t)
    ensures ValueOf(t) == DigitValue(t[0]) * 100 + DigitValue(t[1]) * 10 + DigitValue(t[2])
  {
    assert t[..2][..1] == t[..1] && t[..1][..0] == [];
    assert ValueOf(t[..1]) == DigitValue(t[0]);
    assert ValueOf(t[..2]) == DigitValue(t[0]) * 10 + DigitValue(t[1]);
  }

  lemma SplitThree(a: nat, b: nat, c: nat)
    requires a < 10 && b < 10 && c < 10
    ensures (a * 100 + b * 10 + c) / 100 == a
    ensures (a * 100 + b * 10 + c) / 10 % 10 == b
    ensures (a * 100 + b * 10 + c) % 10 == c
  {
    var n := a * 100 + b * 10 + c;
    assert n / 10 == a * 10 + b;
  }

  lemma DigitCharOfValue(c: char)
    requires IsDigit(c)
    ensures DigitChar(DigitValue(c)) == c
  {
  }
}

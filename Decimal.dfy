/**
 * Decimal digit strings and the natural numbers they denote: JavaScript's
 * rendering of a non-negative integer in a template string (`${n}`), and the
 * reading of a run of digits.
 */
module Decimal {

  predicate IsDigit(c: char) {
    '0' <= c <= '9'
  }

  predicate AllDigits(s: string) {
    forall i :: 0 <= i < |s| ==> IsDigit(s[i])
  }

  /** A non-empty digit string without leading zeros: how JavaScript prints an integer. */
  predicate Canonical(s: string) {
    |s| >= 1 && AllDigits(s) && (s[0] == '0' ==> |s| == 1)
  }

  function DigitValue(c: char): (d: nat)
    requires IsDigit(c)
    ensures d < 10
  {
    (c as int) - ('0' as int)
  }

  function DigitChar(d: nat): (c: char)
    requires d < 10
    ensures IsDigit(c) && DigitValue(c) == d
  {
    (('0' as int) + d) as char
  }

  /** The number a string of decimal digits denotes (most significant digit first). */
  function ValueOf(s: string): nat
    requires AllDigits(s)
  {
    if s == [] then 0 else ValueOf(s[..|s| - 1]) * 10 + DigitValue(s[|s| - 1])
  }

  /** The decimal rendering of `n`, as `${n}` prints it. */
  function Digits(n: nat): (s: string)
    ensures |s| >= 1 && AllDigits(s)
    decreases n
  {
    if n < 10 then [DigitChar(n)] else Digits(n / 10) + [DigitChar(n % 10)]
  }

  lemma {:induction false} ValueOfDigits(n: nat)
    ensures ValueOf(Digits(n)) == n
    decreases n
  {
    if n >= 10 {
      var s := Digits(n);
      assert s[..|s| - 1] == Digits(n / 10);
      ValueOfDigits(n / 10);
    }
  }

  lemma {:induction false} DigitsCanonical(n: nat)
    ensures Canonical(Digits(n))
    decreases n
  {
    if n >= 10 {
      DigitsCanonical(n / 10);
      DigitsLeadNonZero(n / 10);
    }
  }

  /** A number of at least 1 is printed without a leading zero. */
  lemma {:induction false} DigitsLeadNonZero(n: nat)
    requires n >= 1
    ensures Digits(n)[0] != '0'
    decreases n
  {
    if n >= 10 {
      DigitsLeadNonZero(n / 10);
    }
  }

  /** A digit string that does not start with '0' denotes a positive number. */
  lemma {:induction false} ValueOfPositive(s: string)
    requires |s| >= 1 && AllDigits(s) && s[0] != '0'
    ensures ValueOf(s) >= 1
    decreases |s|
  {
    if |s| > 1 {
      ValueOfPositive(s[..|s| - 1]);
    }
  }

  /** Printing the number a canonical digit string denotes gives the string back. */
  lemma {:induction false} DigitsOfValue(s: string)
    requires Canonical(s)
    ensures Digits(ValueOf(s)) == s
    decreases |s|
  {
    if |s| > 1 {
      var t := s[..|s| - 1];
      ValueOfPositive(t);
      DigitsOfValue(t);
      assert s == t + [s[|s| - 1]];
    }
  }

  /** Printing is injective: two numbers with the same rendering are equal. */
  lemma DigitsInjective(m: nat, n: nat)
    requires Digits(m) == Digits(n)
    ensures m == n
  {
    ValueOfDigits(m);
    ValueOfDigits(n);
  }

  /**
   * The length of the longest run of digits in `s` that starts at `i`: how far
   * a greedy `\d+` (or `parseFloat`'s integer part) reads from `i`.
   */
  function DigitRun(s: string, i: nat): (k: nat)
    requires i <= |s|
    ensures i + k <= |s| && AllDigits(s[i..i + k])
    ensures i + k == |s| || !IsDigit(s[i + k])
    decreases |s| - i
  {
    if i < |s| && IsDigit(s[i]) then
      var k := DigitRun(s, i + 1);
      assert s[i..i + 1 + k] == [s[i]] + s[i + 1..i + 1 + k];
      1 + k
    else 0
  }

  /** Any run of digits from `i` that stops at a non-digit or at the end is the longest one. */
  lemma {:induction false} DigitRunUnique(s: string, i: nat, j: nat)
    requires i <= j <= |s| && AllDigits(s[i..j])
    requires j == |s| || !IsDigit(s[j])
    ensures DigitRun(s, i) == j - i
    decreases j - i
  {
    if i < j {
      assert IsDigit(s[i..j][0]);
      assert s[i + 1..j] == s[i..j][1..];
      DigitRunUnique(s, i + 1, j);
    }
  }

  lemma TwoDigitValue(c1: char, c2: char)
    requires IsDigit(c1) && IsDigit(c2)
    ensures ValueOf([c1, c2]) == DigitValue(c1) * 10 + DigitValue(c2)
  {
    var s := [c1, c2];
    assert s[..1] == [c1];
    assert [c1][..0] == [];
    assert ValueOf([c1]) == DigitValue(c1);
    assert ValueOf(s) == ValueOf(s[..1]) * 10 + DigitValue(c2);
  }

  /** A slice of a slice is a slice of the original. */
  lemma SliceOfSlice(s: string, i: nat, j: nat, k: nat, l: nat)
    requires i <= j <= |s| && k <= l <= j - i
    ensures s[i..j][k..l] == s[i + k..i + l]
  {
    var t := s[i..j][k..l];
    assert |t| == l - k;
    forall x | 0 <= x < l - k ensures t[x] == s[i + k + x] {
    }
  }
}

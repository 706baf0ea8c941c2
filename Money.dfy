/**
 * The money conversions of the bridge: a decimal price string from the Store
 * to integer kopecks (minor units), and integer kopecks back to a string with
 * exactly two fractional digits.  Both are stated exactly over integers and
 * digit strings.
 */
module Money {
  import opened Wrappers
  import opened Decimal

  /**
   * The well-formed price texts: a non-empty integer part, optionally followed
   * by '.' and at most two fractional digits ("1234", "1234.", "1234.5", "1234.56").
   */
  predicate IsPriceText(s: string) {
    (|s| >= 1 && AllDigits(s))
    || exists i :: 0 < i < |s| && s[i] == '.' && AllDigits(s[..i]) && AllDigits(s[i + 1..]) && |s| - i - 1 <= 2
  }

  /** A price as the bridge itself prints it: canonical integer part, '.', two digits. */
  predicate IsCanonicalPrice(s: string) {
    |s| >= 4 && s[|s| - 3] == '.' && Canonical(s[..|s| - 3]) && AllDigits(s[|s| - 2..])
  }

  /** 10 to the power of the number of fractional digits short of two. */
  function FracScale(k: nat): nat
    requires k <= 2
  {
    if k == 0 then 100 else if k == 1 then 10 else 1
  }

  /** The kopecks of a price with integer part `w` and fractional digits `f`. */
  function PartsToMinor(w: string, f: string): nat
    requires AllDigits(w) && AllDigits(f) && |f| <= 2
  {
    ValueOf(w) * 100 + ValueOf(f) * FracScale(|f|)
  }

  /**
   * The price `s` in kopecks, `Math.round(parseFloat(s) * 100)` on a
   * well-formed price: the leading digits are the integer part, and what
   * follows them must be nothing, or '.' and at most two digits.  `None` for a
   * text that is not a well-formed price.
   */
  function MoneyToMinor(s: string): (r: Option<nat>)
  {
    var i := DigitRun(s, 0);
    if i == 0 then None
    else if i == |s| then Some(PartsToMinor(s, []))
    else if s[i] == '.' && AllDigits(s[i + 1..]) && |s| - i - 1 <= 2 then
      Some(PartsToMinor(s[..i], s[i + 1..]))
    else None
  }

  /** `(minor / 100).toFixed(2)` for a non-negative integer amount of kopecks. */
  function MinorToMoney(minor: nat): (r: string)
  {
    Digits(minor / 100) + "." + [DigitChar(minor % 100 / 10), DigitChar(minor % 10)]
  }

  /**
   * A price text reads as its integer part times 100 plus its fractional
   * digits scaled to hundredths.
   */
  lemma MoneyToMinorOfParts(w: string, f: string)
    requires |w| >= 1 && AllDigits(w) && AllDigits(f) && |f| <= 2
    ensures MoneyToMinor(w) == Some(PartsToMinor(w, []))
    ensures MoneyToMinor(w + "." + f) == Some(PartsToMinor(w, f))
  {
    assert w[0..|w|] == w;
    DigitRunUnique(w, 0, |w|);
    var s := w + "." + f;
    assert s[0..|w|] == w;
    assert s[|w|] == '.';
    DigitRunUnique(s, 0, |w|);
    assert s[..|w|] == w;
    assert s[|w| + 1..] == f;
  }

  /** Exactly the well-formed price texts convert. */
  lemma MoneyToMinorDefinedIff(s: string)
    ensures MoneyToMinor(s).Some? <==> IsPriceText(s)
  {
    if MoneyToMinor(s).Some? {
      ConvertedIsPriceText(s);
    }
    if IsPriceText(s) {
      PriceTextConverts(s);
    }
  }

  lemma ConvertedIsPriceText(s: string)
    requires MoneyToMinor(s).Some?
    ensures IsPriceText(s)
  {
    var i := DigitRun(s, 0);
    assert s[0..i] == s[..i];
    if i == |s| {
      assert s[..i] == s;
    } else {
      assert s[i] == '.';
    }
  }

  lemma PriceTextConverts(s: string)
    requires IsPriceText(s)
    ensures MoneyToMinor(s).Some?
  {
    if |s| >= 1 && AllDigits(s) {
      MoneyToMinorOfParts(s, []);
    } else {
      var j :| 0 < j < |s| && s[j] == '.' && AllDigits(s[..j]) && AllDigits(s[j + 1..]) && |s| - j - 1 <= 2;
      PriceTextWithDotConverts(s, j);
    }
  }

  lemma PriceTextWithDotConverts(s: string, j: nat)
    requires 0 < j < |s| && s[j] == '.' && AllDigits(s[..j]) && AllDigits(s[j + 1..]) && |s| - j - 1 <= 2
    ensures MoneyToMinor(s).Some?
  {
    var w, f := s[..j], s[j + 1..];
    assert s == w + "." + f;
    MoneyToMinorOfParts(w, f);
  }

  /** A printed amount is canonical and its two parts denote `minor / 100` and `minor % 100`. */
  lemma MinorToMoneyShape(minor: nat)
    ensures IsCanonicalPrice(MinorToMoney(minor))
    ensures var r := MinorToMoney(minor);
      ValueOf(r[..|r| - 3]) == minor / 100 && ValueOf(r[|r| - 2..]) == minor % 100
  {
    var r := MinorToMoney(minor);
    var w := Digits(minor / 100);
    var c1, c2 := DigitChar(minor % 100 / 10), DigitChar(minor % 10);
    assert r[..|r| - 3] == w;
    assert r[|r| - 2..] == [c1, c2];
    DigitsCanonical(minor / 100);
    ValueOfDigits(minor / 100);
    TwoDigitValue(c1, c2);
    HundredsParts(minor);
  }

  /** Reading back a printed amount gives the amount: no kopeck is lost either way. */
  lemma MoneyRoundTripFromMinor(minor: nat)
    ensures MoneyToMinor(MinorToMoney(minor)) == Some(minor)
  {
    var w := Digits(minor / 100);
    var f := [DigitChar(minor % 100 / 10), DigitChar(minor % 10)];
    assert MinorToMoney(minor) == w + "." + f;
    MoneyToMinorOfParts(w, f);
    ValueOfDigits(minor / 100);
    TwoDigitValue(f[0], f[1]);
    HundredsParts(minor);
    assert ValueOf(f) == minor % 100 / 10 * 10 + minor % 10;
    assert FracScale(|f|) == 1;
  }

  /** Printing the kopecks of a canonical two-decimal price gives the price text back. */
  lemma MoneyRoundTripFromText(s: string)
    requires IsCanonicalPrice(s)
    ensures MoneyToMinor(s).Some?
    ensures MinorToMoney(MoneyToMinor(s).value) == s
  {
    var n := |s|;
    var w, f := s[..n - 3], s[n - 2..];
    assert s == w + "." + f;
    MoneyToMinorOfParts(w, f);
    var q, d1, d2 := ValueOf(w), DigitValue(f[0]), DigitValue(f[1]);
    TwoDigitValue(f[0], f[1]);
    assert f == [f[0], f[1]];
    var v := PartsToMinor(w, f);
    assert v == q * 100 + (d1 * 10 + d2);
    SplitHundreds(q, d1, d2);
    DigitsOfValue(w);
    DigitCharOfValue(f[0]);
    DigitCharOfValue(f[1]);
    assert MinorToMoney(v) == Digits(q) + "." + [DigitChar(d1), DigitChar(d2)];
  }

  lemma SplitHundreds(q: nat, d1: nat, d2: nat)
    requires d1 < 10 && d2 < 10
    ensures (q * 100 + (d1 * 10 + d2)) / 100 == q
    ensures (q * 100 + (d1 * 10 + d2)) % 100 / 10 == d1
    ensures (q * 100 + (d1 * 10 + d2)) % 10 == d2
  {
    var r := d1 * 10 + d2;
    DivModBy(q * 100 + r, 100, q, r);
    DivModBy(r, 10, d1, d2);
    DivModBy(q * 100 + r, 10, q * 10 + d1, d2);
  }

  /** The two digits of the kopeck part, and the whole amount, rebuilt from their parts. */
  lemma HundredsParts(n: nat)
    ensures n / 100 * 100 + (n % 100 / 10 * 10 + n % 10) == n
  {
    var q, r := n / 100, n % 100;
    assert n == q * 100 + r;
    assert r == r / 10 * 10 + r % 10;
    DivModBy(n, 10, q * 10 + r / 10, r % 10);
  }

  /** Division with remainder determines quotient and remainder. */
  lemma DivModBy(v: nat, d: nat, q: nat, r: nat)
    requires d > 0 && v == q * d + r && r < d
    ensures v / d == q && v % d == r
  {
    var q', r' := v / d, v % d;
    assert v == q' * d + r';
    if q' < q {
      assert q' * d + d <= q * d by { MulLe(q' + 1, q, d); }
    } else if q' > q {
      assert q * d + d <= q' * d by { MulLe(q + 1, q', d); }
    }
  }

  lemma MulLe(a: nat, b: nat, d: nat)
    requires a <= b
    ensures a * d <= b * d
  {
  }

  lemma DigitCharOfValue(c: char)
    requires IsDigit(c)
    ensures DigitChar(DigitValue(c)) == c
  {
  }

  /** "1234.56" is 123456 kopecks. */
  lemma PriceExample1234()
    ensures MoneyToMinor("1234.56") == Some(123456)
  {
    assert Digits(12) == "12";
    assert Digits(123) == "123";
    assert Digits(1234) == "1234";
    assert Digits(56) == "56";
    ValueOfDigits(1234);
    ValueOfDigits(56);
    assert "1234.56" == "1234" + "." + "56";
    MoneyToMinorOfParts("1234", "56");
    assert PartsToMinor("1234", "56") == 1234 * 100 + 56 * FracScale(2);
  }

  /** "199.99" is 19999 kopecks. */
  lemma PriceExample199()
    ensures MoneyToMinor("199.99") == Some(19999)
  {
    assert Digits(19) == "19";
    assert Digits(199) == "199";
    assert Digits(99) == "99";
    ValueOfDigits(199);
    ValueOfDigits(99);
    assert "199.99" == "199" + "." + "99";
    MoneyToMinorOfParts("199", "99");
    assert PartsToMinor("199", "99") == 199 * 100 + 99 * FracScale(2);
  }

  /** 4000 kopecks print as "40.00". */
  lemma PriceExample4000()
    ensures MinorToMoney(4000) == "40.00"
  {
    assert Digits(40) == "40";
  }
}

/**
 * How much of an order the payer is charged: the whole total, or a deposit of
 * a configured percentage rounded up to the next kopeck.
 */
module AmountPolicy {

  /** The one mode value that selects a deposit; every other value means the full amount. */
  const DepositMode: string := "deposit"

  /** `Math.max(1, Math.min(100, p))`: the configured percentage forced into [1, 100]. */
  function ClampPercent(p: int): (r: int)
    ensures 1 <= r <= 100
    ensures 1 <= p <= 100 ==> r == p
    ensures p < 1 ==> r == 1
    ensures p > 100 ==> r == 100
  {
    if p < 1 then 1 else if p > 100 then 100 else p
  }

  /** The rational ceiling of `a / 100`: the quotient, plus one when there is a remainder. */
  function CeilHundredth(a: nat): nat
  {
    if a % 100 == 0 then a / 100 else a / 100 + 1
  }

  /** The kopecks charged for an order of `totalMinor` kopecks in mode `mode`. */
  function PayableMinor(totalMinor: nat, mode: string, percent: int): nat
  {
    if mode == DepositMode then CeilHundredth(totalMinor * ClampPercent(percent)) else totalMinor
  }

  /** `CeilHundredth(a)` is the least `r` with `100 * r >= a`. */
  lemma CeilHundredthIsLeast(a: nat, r: nat)
    ensures CeilHundredth(a) * 100 >= a
    ensures CeilHundredth(a) * 100 < a + 100
    ensures r * 100 >= a ==> r >= CeilHundredth(a)
  {
  }

  /** `Math.ceil(a / 100)` computed on integers: rounding up by adding 99 first. */
  lemma CeilHundredthByAdding(a: nat)
    ensures (a + 99) / 100 == CeilHundredth(a)
  {
  }

  /** A mode other than "deposit" charges the total unchanged. */
  lemma FullModeChargesTotal(totalMinor: nat, mode: string, percent: int)
    requires mode != DepositMode
    ensures PayableMinor(totalMinor, mode, percent) == totalMinor
  {
  }

  /**
   * A deposit never under-collects: it is the smallest number of kopecks that
   * covers the clamped percentage of the total, and it is at most the total.
   */
  lemma DepositBounds(totalMinor: nat, percent: int, r: nat)
    ensures var pay := PayableMinor(totalMinor, DepositMode, percent);
      var p := ClampPercent(percent);
      pay * 100 >= totalMinor * p
      && pay * 100 < totalMinor * p + 100
      && (r * 100 >= totalMinor * p ==> r >= pay)
      && pay <= totalMinor
  {
    var p := ClampPercent(percent);
    var a := totalMinor * p;
    CeilHundredthIsLeast(a, r);
    PercentOfTotal(totalMinor, p);
    CeilHundredthIsLeast(a, totalMinor);
  }

  lemma PercentOfTotal(t: nat, p: int)
    requires 1 <= p <= 100
    ensures t * p <= t * 100
  {
  }

  /** A percentage out of range acts as the nearest bound. */
  lemma OutOfRangePercent(totalMinor: nat, percent: int)
    ensures percent < 1 ==> PayableMinor(totalMinor, DepositMode, percent) == PayableMinor(totalMinor, DepositMode, 1)
    ensures percent > 100 ==> PayableMinor(totalMinor, DepositMode, percent) == totalMinor
  {
  }

  /** A larger percentage never charges less. */
  lemma DepositMonotone(totalMinor: nat, p: int, q: int)
    requires p <= q
    ensures PayableMinor(totalMinor, DepositMode, p) <= PayableMinor(totalMinor, DepositMode, q)
  {
    var a, b := totalMinor * ClampPercent(p), totalMinor * ClampPercent(q);
    assert a <= b;
    CeilHundredthIsLeast(a, CeilHundredth(b));
  }

  lemma DepositExamples()
    ensures PayableMinor(10000, DepositMode, 20) == 2000
    ensures PayableMinor(10001, DepositMode, 20) == 2001
    ensures PayableMinor(19999, DepositMode, 20) == 4000
    ensures PayableMinor(19999, "full", 20) == 19999
  {
  }
}

/** The stake reward: the yearly rate, found by bisection between a floor and 100 CENT, times the coin age. */
module Reward {
  import opened Basics
  import opened Arithmetic
  import opened Compact

  const CENT: nat := 10000
  const TOP: nat := 100 * CENT   // MAX_MINT_PROOF_OF_STAKE_FIX2

  function Power(x: nat, e: nat): nat { if e == 0 then 1 else x * Power(x, e - 1) }

  /** The rate x is above the curve: (TOP / x)^e is below limit / target. */
  predicate Over(e: nat, limit: nat, target: int, x: nat) { Power(x, e) * limit > Power(TOP, e) * target }

  lemma {:induction false} PowerMonotone(x: nat, y: nat, e: nat)
    requires x <= y
    ensures Power(x, e) <= Power(y, e)
  {
    if e > 0 {
      PowerMonotone(x, y, e - 1);
      MulLe(x, y, Power(x, e - 1));
      MulLe(Power(x, e - 1), Power(y, e - 1), y);
    }
  }

  lemma OverMonotone(e: nat, limit: nat, target: int, x: nat, y: nat)
    requires x <= y && Over(e, limit, target, x)
    ensures Over(e, limit, target, y)
  {
    PowerMonotone(x, y, e);
    MulLe(Power(x, e), Power(y, e), limit);
  }

  lemma OverAntitone(e: nat, limit: nat, target: int, target': int, x: nat)
    requires target <= target' && Over(e, limit, target', x)
    ensures Over(e, limit, target, x)
  {
    MulLe(target, target', Power(TOP, e));
  }

  // ------------------------------------------------------------ bisection

  function Bisect(e: nat, limit: nat, target: int, lo: nat, hi: nat): nat
    decreases hi - lo
  {
    if lo + CENT <= hi then
      var mid := (lo + hi) / 2;
      if Over(e, limit, target, mid) then Bisect(e, limit, target, lo, mid) else Bisect(e, limit, target, mid, hi)
    else hi
  }

  /** The result is within a CENT above the threshold of the curve, or at an end of the range. */
  ghost predicate AtThreshold(e: nat, limit: nat, target: int, lo: nat, hi: nat, x: nat) {
    && lo < x <= hi
    && (forall y: nat :: lo <= y <= x - CENT ==> !Over(e, limit, target, y))
    && (forall y: nat :: x <= y < hi ==> Over(e, limit, target, y))
  }

  lemma {:induction false} BisectThreshold(e: nat, limit: nat, target: int, lo: nat, hi: nat)
    requires lo < hi
    ensures AtThreshold(e, limit, target, lo, hi, Bisect(e, limit, target, lo, hi))
    decreases hi - lo
  {
    hide Over;
    if lo + CENT <= hi {
      var mid := (lo + hi) / 2;
      if Over(e, limit, target, mid) {
        BisectThreshold(e, limit, target, lo, mid);
        forall y: nat | mid <= y ensures Over(e, limit, target, y) { OverMonotone(e, limit, target, mid, y); }
      } else {
        BisectThreshold(e, limit, target, mid, hi);
        forall y: nat | y <= mid ensures !Over(e, limit, target, y) {
          if Over(e, limit, target, y) { OverMonotone(e, limit, target, y, mid); }
        }
      }
    }
  }

  /** An easier target never lowers the rate. */
  lemma {:induction false} BisectMonotone(e: nat, limit: nat, target: int, target': int, lo: nat, hi: nat)
    requires target <= target' && lo < hi
    ensures Bisect(e, limit, target, lo, hi) <= Bisect(e, limit, target', lo, hi)
    decreases hi - lo
  {
    hide Over;
    if lo + CENT <= hi {
      var mid := (lo + hi) / 2;
      if Over(e, limit, target', mid) {
        OverAntitone(e, limit, target, target', mid);
        BisectMonotone(e, limit, target, target', lo, mid);
      } else if Over(e, limit, target, mid) {
        BisectThreshold(e, limit, target, lo, mid);
        BisectThreshold(e, limit, target', mid, hi);
      } else {
        BisectMonotone(e, limit, target, target', mid, hi);
      }
    }
  }

  // ------------------------------------------------------------ the rates

  function Rounded(x: nat): nat { if x / CENT * CENT <= TOP then x / CENT * CENT else TOP }

  /** The rate of version 2 rewards: fourth power, floor 10 CENT. */
  function RateV2(limit: nat, target: int): nat { Rounded(Bisect(4, limit, target, 10 * CENT, TOP)) }

  /** The rate of version 3 rewards: sixth power as coded, floor 20 CENT. */
  function RateV3(limit: nat, target: int): nat { Rounded(Bisect(6, limit, target, 20 * CENT, TOP)) }

  lemma RoundedRange(x: nat, floor: nat)
    requires floor % CENT == 0 && floor <= x && floor <= TOP
    ensures floor <= Rounded(x) <= TOP && Rounded(x) % CENT == 0
    ensures x <= TOP ==> Rounded(x) <= x < Rounded(x) + CENT
  {
    DivMonotone(floor, x, CENT);
  }

  lemma RateRange(limit: nat, target: int)
    ensures 10 * CENT <= RateV2(limit, target) <= TOP && RateV2(limit, target) % CENT == 0
    ensures 20 * CENT <= RateV3(limit, target) <= TOP && RateV3(limit, target) % CENT == 0
    ensures RateV2(limit, target) <= Bisect(4, limit, target, 10 * CENT, TOP) < RateV2(limit, target) + CENT
    ensures RateV3(limit, target) <= Bisect(6, limit, target, 20 * CENT, TOP) < RateV3(limit, target) + CENT
  {
    BisectThreshold(4, limit, target, 10 * CENT, TOP);
    BisectThreshold(6, limit, target, 20 * CENT, TOP);
    hide Bisect, Rounded;
    RoundedRange(Bisect(4, limit, target, 10 * CENT, TOP), 10 * CENT);
    RoundedRange(Bisect(6, limit, target, 20 * CENT, TOP), 20 * CENT);
  }

  /** The version 2 rate is where the fourth power of the rate crosses the curve, to within a CENT, or at the floor or
      the top when it does not cross in between. */
  lemma RateV2Crosses(limit: nat, target: int, x: nat)
    requires 10 * CENT <= x < TOP
    ensures x + CENT <= RateV2(limit, target) ==> x * x * x * x * limit <= TOP * TOP * TOP * TOP * target
    ensures x >= RateV2(limit, target) + CENT ==> x * x * x * x * limit > TOP * TOP * TOP * TOP * target
  {
    BisectThreshold(4, limit, target, 10 * CENT, TOP);
    hide Bisect, Rounded, Power;
    RoundedRange(Bisect(4, limit, target, 10 * CENT, TOP), 10 * CENT);
    PowerProducts(x);
    PowerProducts(TOP);
    assert Over(4, limit, target, x) <==> x * x * x * x * limit > TOP * TOP * TOP * TOP * target;
  }

  /** The version 3 rate, with the sixth power. */
  lemma RateV3Crosses(limit: nat, target: int, x: nat)
    requires 20 * CENT <= x < TOP
    ensures x + CENT <= RateV3(limit, target) ==> x * x * x * x * x * x * limit <= TOP * TOP * TOP * TOP * TOP * TOP * target
    ensures x >= RateV3(limit, target) + CENT ==> x * x * x * x * x * x * limit > TOP * TOP * TOP * TOP * TOP * TOP * target
  {
    BisectThreshold(6, limit, target, 20 * CENT, TOP);
    hide Bisect, Rounded, Power;
    RoundedRange(Bisect(6, limit, target, 20 * CENT, TOP), 20 * CENT);
    PowerProducts(x);
    PowerProducts(TOP);
    assert Over(6, limit, target, x) <==> x * x * x * x * x * x * limit > TOP * TOP * TOP * TOP * TOP * TOP * target;
  }

  lemma RateMonotone(limit: nat, target: int, target': int)
    requires target <= target'
    ensures RateV2(limit, target) <= RateV2(limit, target') && RateV3(limit, target) <= RateV3(limit, target')
  {
    BisectMonotone(4, limit, target, target', 10 * CENT, TOP);
    BisectMonotone(6, limit, target, target', 20 * CENT, TOP);
  }

  lemma PowerProducts(x: nat)
    ensures Power(x, 4) == x * x * x * x && Power(x, 6) == x * x * x * x * x * x
  {
    assert Power(x, 1) == x * Power(x, 0) == x;
    assert Power(x, 2) == x * x;
    assert Power(x, 3) == x * Power(x, 2);
    assert Power(x, 4) == x * Power(x, 3);
    assert Power(x, 5) == x * Power(x, 4);
    assert Power(x, 6) == x * Power(x, 5);
  }

  // ------------------------------------------------------------ the reward

  const COIN: nat := 1000000
  const CAP: nat := 250 * COIN
  const YEAR: nat := 365 * 33 + 8   // in 33rds of a day
  const TWO_63: nat := 0x8000_0000_0000_0000
  const TWO_64: nat := 0x1_0000_0000_0000_0000

  /** A 64-bit signed integer that wraps around. */
  function Wrap64(x: int): int { (x + TWO_63) % TWO_64 - TWO_63 }

  /** The reward in 64-bit arithmetic, and in unbounded arithmetic. */
  function Subsidy(age: int, rate: nat): int { Min(Quotient(Wrap64(Wrap64(age * 33) * rate), YEAR), CAP) }

  function Earned(age: nat, rate: nat): int { Min(age * 33 * rate / YEAR, CAP) }

  /** A coin age of a year, 365 8/33 days, earns the rate, up to the cap. */
  lemma EarnedIs(age: nat, rate: nat)
    ensures var r := Earned(age, rate); r == 250 * COIN || (r < 250 * COIN && r * (365 * 33 + 8) <= 33 * age * rate < (r + 1) * (365 * 33 + 8))
    ensures Earned(age, rate) == 250 * COIN <==> 33 * age * rate >= 250 * COIN * (365 * 33 + 8)
  {
    var x := age * 33 * rate;
    assert x == 33 * age * rate;
    assert x == x / YEAR * YEAR + x % YEAR;
  }

  lemma ModShift(x: int, m: int)
    ensures (x - m * TWO_64) % TWO_64 == x % TWO_64
  {
  }

  /** Wrapping a factor first does not matter. */
  lemma WrapProduct(a: int, b: int)
    ensures Wrap64(Wrap64(a) * b) == Wrap64(a * b)
  {
    var m := (a + TWO_63) / TWO_64;
    assert Wrap64(a) == a - m * TWO_64;
    Shifted(a, m, b);
    ModShift(a * b + TWO_63, m * b);
  }

  lemma Shifted(a: int, m: int, b: int)
    ensures (a - m * TWO_64) * b == a * b - (m * b) * TWO_64
  {
  }

  /** The reward is what unbounded arithmetic gives, if and only if the product fits in 64 bits or wraps to one
      that still reaches the cap. */
  lemma SubsidyExact(age: nat, rate: nat)
    ensures Subsidy(age, rate) == Earned(age, rate) <==> age * 33 * rate < TWO_63 || Wrap64(age * 33 * rate) >= CAP * YEAR
  {
    var p := age * 33 * rate;
    WrapProduct(age * 33, rate);
    hide Wrap64;
    CapReached(Wrap64(p));
    CapReached(p);
    FitsKept(p);
  }

  lemma FitsKept(p: nat)
    ensures p < TWO_63 ==> Wrap64(p) == p
  {
  }

  lemma CapReached(x: int)
    ensures Quotient(x, YEAR) >= CAP <==> x >= CAP * YEAR
  {
  }

  /** Beyond 64 bits the reward can be negative. */
  lemma OverflowPaysNegative()
    ensures Subsidy(279496122329, TOP) < 0 < Earned(279496122329, TOP)
  {
  }

  /** While the product fits, the reward is between 0 and the cap and grows with the coin age and the target. */
  lemma RewardMonotone(limit: nat, target: int, target': int, age: nat, age': nat)
    requires target <= target' && age <= age' && age' * 33 * TOP < TWO_63
    ensures 0 <= Subsidy(age, RateV2(limit, target)) <= Subsidy(age', RateV2(limit, target')) <= CAP
    ensures 0 <= Subsidy(age, RateV3(limit, target)) <= Subsidy(age', RateV3(limit, target')) <= CAP
  {
    hide RateV2, RateV3, Subsidy;
    RateMonotone(limit, target, target');
    RateRange(limit, target);
    RateRange(limit, target');
    EarnedMonotone(age, age', RateV2(limit, target), RateV2(limit, target'));
    EarnedMonotone(age, age', RateV3(limit, target), RateV3(limit, target'));
  }

  lemma EarnedMonotone(age: nat, age': nat, rate: nat, rate': nat)
    requires age <= age' && rate <= rate' <= TOP && age' * 33 * TOP < TWO_63
    ensures 0 <= Subsidy(age, rate) <= Subsidy(age', rate') <= CAP
  {
    hide Subsidy;
    MulLe(age * 33, age' * 33, rate);
    MulLe(rate, rate', age' * 33);
    MulLe(rate', TOP, age' * 33);
    SubsidyExact(age, rate);
    SubsidyExact(age', rate');
    DivMonotone(age * 33 * rate, age' * 33 * rate', YEAR);
  }

  /** The reward for a coin age and the target in a block's bits, or the coin-year rate alone; limit is the
      proof-of-stake limit, taken through its compact form first. */
  method GetProofOfStakeRewardV2(limit: nat, age: int, bits: nat, coinYearOnly: bool) returns (reward: int)
    requires bits < TWO_32
    ensures var rate := RateV2(Quantised(limit), SetCompact(bits)); reward == if coinYearOnly then rate else Subsidy(age, rate)
  {
    hide Wrap64, Quotient;
    var target, targetLimit := SetCompact(bits), Quantised(limit);
    var lo: nat, hi: nat := 10 * CENT, TOP;
    while lo + CENT <= hi
      invariant lo < hi && Bisect(4, targetLimit, target, lo, hi) == Bisect(4, targetLimit, target, 10 * CENT, TOP)
      decreases hi - lo
    {
      var mid := (lo + hi) / 2;
      PowerProducts(mid);
      PowerProducts(TOP);
      if mid * mid * mid * mid * targetLimit > TOP * TOP * TOP * TOP * target {
        hi := mid;
      } else {
        lo := mid;
      }
    }
    var rate := if hi / CENT * CENT <= TOP then hi / CENT * CENT else TOP;
    if coinYearOnly { return rate; }
    reward := Quotient(Wrap64(Wrap64(age * 33) * rate), YEAR);
    reward := if reward <= CAP then reward else CAP;
  }

  method GetProofOfStakeRewardV3(limit: nat, age: int, bits: nat, coinYearOnly: bool) returns (reward: int)
    requires bits < TWO_32
    ensures var rate := RateV3(Quantised(limit), SetCompact(bits)); reward == if coinYearOnly then rate else Subsidy(age, rate)
  {
    hide Wrap64, Quotient;
    var target, targetLimit := SetCompact(bits), Quantised(limit);
    var lo: nat, hi: nat := 20 * CENT, TOP;
    while lo + CENT <= hi
      invariant lo < hi && Bisect(6, targetLimit, target, lo, hi) == Bisect(6, targetLimit, target, 20 * CENT, TOP)
      decreases hi - lo
    {
      var mid := (lo + hi) / 2;
      PowerProducts(mid);
      PowerProducts(TOP);
      var midPart, rewardPart := mid * mid * mid * mid * mid * mid, TOP * TOP * TOP * TOP * TOP * TOP;
      if midPart * targetLimit > rewardPart * target {
        hi := mid;
      } else {
        lo := mid;
      }
    }
    var rate := if hi / CENT * CENT <= TOP then hi / CENT * CENT else TOP;
    if coinYearOnly { return rate; }
    reward := Quotient(Wrap64(Wrap64(age * 33) * rate), YEAR);
    reward := if reward <= CAP then reward else CAP;
  }
}

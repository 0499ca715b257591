/** The difficulty retarget of version 2 blocks. */
module Retarget {
  import opened Basics
  import opened Arithmetic
  import opened Bytes
  import opened Compact

  /** What the retarget reads of a block; a chain lists them from the genesis block, so places are heights. */
  datatype Header = Header(proofOfStake: bool, time: nat, bits: nat)

  datatype Limits = Limits(work: nat, stake: nat)

  function Limit(l: Limits, proofOfStake: bool): nat { if proofOfStake then l.stake else l.work }

  /** The limits are 256-bit numbers. */
  ghost predicate LimitsOk(l: Limits) { l.work < Pow256(32) && l.stake < Pow256(32) }

  /** The network's settings at one time: the stake target spacing and the timespan of the moving average. */
  datatype Pace = Pace(spacing: nat, timespan: nat)

  /** The proof-of-work spacing is at most 12 stake spacings, and that is within the timespan. */
  predicate PaceOk(p: Pace) { 0 < p.spacing && 12 * p.spacing <= p.timespan }

  /** The height of the last block of a kind, or 0, the genesis block, when there is none. */
  function LastOfKind(chain: seq<Header>, proofOfStake: bool): nat
    requires chain != []
  {
    if |chain| == 1 || chain[|chain| - 1].proofOfStake == proofOfStake then |chain| - 1
    else LastOfKind(chain[..|chain| - 1], proofOfStake)
  }

  lemma {:induction false} LastOfKindIs(chain: seq<Header>, proofOfStake: bool)
    requires chain != []
    ensures var i := LastOfKind(chain, proofOfStake);
            && i < |chain| && (i > 0 ==> chain[i].proofOfStake == proofOfStake)
            && forall j :: i < j < |chain| ==> chain[j].proofOfStake != proofOfStake
  {
    if |chain| > 1 && chain[|chain| - 1].proofOfStake != proofOfStake { LastOfKindIs(chain[..|chain| - 1], proofOfStake); }
  }

  /** Walk back to a block of the kind. */
  method GetLastBlockIndex(chain: seq<Header>, proofOfStake: bool) returns (i: nat)
    requires chain != []
    ensures i == LastOfKind(chain, proofOfStake)
  {
    i := |chain| - 1;
    assert chain[..i + 1] == chain;
    while i > 0 && chain[i].proofOfStake != proofOfStake
      invariant i < |chain| && LastOfKind(chain[..i + 1], proofOfStake) == LastOfKind(chain, proofOfStake)
    {
      assert chain[..i + 1][..i] == chain[..i];
      i := i - 1;
    }
    assert chain[..i + 1][i] == chain[i];
  }

  predicate TargetInRange(l: Limits, h: Header) {
    h.bits < TWO_32 && 0 <= SetCompact(h.bits) <= Limit(l, h.proofOfStake)
  }

  /** The spacing aimed at: for proof of work more the longer ago the last such block is, up to 12 times. */
  function Spacing(p: Pace, gap: nat, proofOfStake: bool): (s: int)
    requires PaceOk(p) && gap > 0
    ensures 0 < s <= p.timespan
  {
    MulPositive(p.spacing, gap);
    if proofOfStake then p.spacing else Min(12 * p.spacing, p.spacing * gap)
  }

  lemma MulPositive(a: int, b: int)
    requires a > 0 && b > 0
    ensures a * b > 0
  {
  }

  function Multiplier(timespan: nat, spacing: int, actual: int): int
    requires spacing > 0
  {
    var actual' := if actual < 0 then spacing else actual;
    (timespan / spacing - 1) * spacing + actual' + actual'
  }

  function Divisor(timespan: nat, spacing: int): (d: int)
    requires spacing > 0
    ensures d > 0
  {
    MulPositive(timespan / spacing + 1, spacing);
    (timespan / spacing + 1) * spacing
  }

  /** The moving average: the old target scaled by the spacing of the last two blocks of the kind. */
  function Scaled(p: Pace, target: int, gap: nat, actual: int, proofOfStake: bool): int
    requires PaceOk(p) && gap > 0
  {
    var spacing := Spacing(p, gap, proofOfStake);
    Quotient(target * Multiplier(p.timespan, spacing, actual), Divisor(p.timespan, spacing))
  }

  lemma MultiplierNonNegative(timespan: nat, spacing: int, actual: int)
    requires 0 < spacing <= timespan
    ensures Multiplier(timespan, spacing, actual) >= 0
  {
    var q := timespan / spacing;
    assert timespan == q * spacing + timespan % spacing;
    assert q >= 1;
    if q > 1 { MulPositive(q - 1, spacing); }
  }

  lemma ScaledNonNegative(p: Pace, target: int, gap: nat, actual: int, proofOfStake: bool)
    requires PaceOk(p) && gap > 0 && target >= 0
    ensures Scaled(p, target, gap, actual, proofOfStake) >= 0
  {
    hide Multiplier, Divisor, Spacing;
    var spacing := Spacing(p, gap, proofOfStake);
    MultiplierNonNegative(p.timespan, spacing, actual);
    var m := Multiplier(p.timespan, spacing, actual);
    assert target * m >= 0;
  }

  /** The target stands when the blocks came at the spacing aimed at, or out of order; it rises when they came
      later and falls when they came earlier. */
  lemma ScaledDirection(p: Pace, target: nat, gap: nat, actual: int, proofOfStake: bool)
    requires PaceOk(p) && gap > 0
    ensures var spacing, scaled := Spacing(p, gap, proofOfStake), Scaled(p, target, gap, actual, proofOfStake);
            && (actual == spacing || actual < 0 ==> scaled == target)
            && (actual > spacing ==> scaled >= target) && (0 <= actual < spacing ==> scaled <= target)
  {
    hide Spacing;
    var spacing := Spacing(p, gap, proofOfStake);
    var actual' := if actual < 0 then spacing else actual;
    var m, d := Multiplier(p.timespan, spacing, actual), Divisor(p.timespan, spacing);
    MultiplierNonNegative(p.timespan, spacing, actual);
    SameProduct(p.timespan / spacing, spacing, actual');
    hide Multiplier, Divisor;
    QuotientSide(target, m, d);
  }

  lemma SameProduct(q: int, s: int, a: int)
    ensures ((q - 1) * s + a + a) - (q + 1) * s == 2 * (a - s)
  {
  }

  lemma QuotientSide(t: nat, m: nat, d: nat)
    requires d > 0
    ensures t * m >= 0 && (m == d ==> t * m / d == t) && (m >= d ==> t * m / d >= t) && (m <= d ==> t * m / d <= t)
  {
    DivUnique(t * d, d, t, 0);
    if m >= d { MulLe(d, m, t); DivMonotone(t * d, t * m, d); } else { MulLe(m, d, t); DivMonotone(t * m, t * d, d); }
  }

  predicate BitsOk(chain: seq<Header>) { forall i :: 0 <= i < |chain| ==> chain[i].bits < TWO_32 }

  /** The bits required of the block after the chain. */
  function NextTargetV2(l: Limits, p: Pace, chain: seq<Header>, proofOfStake: bool): nat
    requires PaceOk(p) && BitsOk(chain)
  {
    var limit := Limit(l, proofOfStake);
    if chain == [] then GetCompact(limit)
    else
      LastOfKindIs(chain, proofOfStake);
      var prev := LastOfKind(chain, proofOfStake);
      if prev == 0 then GetCompact(limit)
      else
        LastOfKindIs(chain[..prev], proofOfStake);
        var prevPrev := LastOfKind(chain[..prev], proofOfStake);
        if prevPrev == 0 then GetCompact(limit)
        else
          GetCompact(Min(Scaled(p, SetCompact(chain[prev].bits), |chain| - prev, chain[prev].time - chain[prevPrev].time, proofOfStake), limit))
  }

  /** With blocks prev and prevPrev the last two of the kind, neither the genesis block, the target of prev is multiplied
      by (timespan / spacing - 1) * spacing + 2 * actual over (timespan / spacing + 1) * spacing and capped at the limit. */
  lemma NextFromLastTwo(l: Limits, p: Pace, chain: seq<Header>, proofOfStake: bool, prev: nat, prevPrev: nat)
    requires PaceOk(p) && BitsOk(chain) && 0 < prevPrev < prev < |chain| && SetCompact(chain[prev].bits) >= 0
    requires chain[prev].proofOfStake == chain[prevPrev].proofOfStake == proofOfStake
    requires forall j :: prevPrev < j < |chain| && j != prev ==> chain[j].proofOfStake != proofOfStake
    ensures var gap, actual := |chain| - prev, chain[prev].time - chain[prevPrev].time;
            var spacing := if proofOfStake then p.spacing else if gap >= 12 then 12 * p.spacing else gap * p.spacing;
            var scaled := Scaled(p, SetCompact(chain[prev].bits), gap, actual, proofOfStake);
            spacing > 0 &&
            var q := p.timespan / spacing;
            && NextTargetV2(l, p, chain, proofOfStake) == GetCompact(if scaled <= Limit(l, proofOfStake) then scaled else Limit(l, proofOfStake))
            && Shares(SetCompact(chain[prev].bits), (q - 1) * spacing + 2 * (if actual < 0 then spacing else actual), (q + 1) * spacing, scaled)
  {
    hide GetCompact, SetCompact, Multiplier, Divisor;
    LastOfKindIs(chain, proofOfStake);
    LastOfKindIs(chain[..prev], proofOfStake);
    assert LastOfKind(chain, proofOfStake) == prev;
    assert chain[..prev][prevPrev] == chain[prevPrev];
    assert LastOfKind(chain[..prev], proofOfStake) == prevPrev;
    GapSpacing(p, |chain| - prev, proofOfStake);
    ScaledShares(p, SetCompact(chain[prev].bits), |chain| - prev, chain[prev].time - chain[prevPrev].time, proofOfStake);
  }

  /** x is the whole part of t * m / d. */
  predicate Shares(t: int, m: int, d: int, x: int) { x * d <= t * m < (x + 1) * d }

  lemma GapSpacing(p: Pace, gap: nat, proofOfStake: bool)
    requires PaceOk(p) && gap > 0
    ensures Spacing(p, gap, proofOfStake) == if proofOfStake then p.spacing else if gap >= 12 then 12 * p.spacing else gap * p.spacing
  {
    if gap >= 12 { MulLe(12, gap, p.spacing); } else { MulLe(gap, 12, p.spacing); }
  }

  lemma ScaledShares(p: Pace, target: int, gap: nat, actual: int, proofOfStake: bool)
    requires PaceOk(p) && gap > 0 && target >= 0
    ensures var s := Spacing(p, gap, proofOfStake); var q := p.timespan / s;
            Shares(target, (q - 1) * s + 2 * (if actual < 0 then s else actual), (q + 1) * s, Scaled(p, target, gap, actual, proofOfStake))
  {
    hide Spacing;
    var s := Spacing(p, gap, proofOfStake);
    var m, d := Multiplier(p.timespan, s, actual), Divisor(p.timespan, s);
    MultiplierNonNegative(p.timespan, s, actual);
    assert m == (p.timespan / s - 1) * s + 2 * (if actual < 0 then s else actual);
    hide Multiplier, Divisor;
    assert target * m >= 0;
    assert target * m == target * m / d * d + target * m % d;
  }

  /** With fewer than two such blocks the limit is required. */
  lemma NextAtStart(l: Limits, p: Pace, chain: seq<Header>, proofOfStake: bool)
    requires PaceOk(p) && BitsOk(chain)
    requires forall i, j :: 0 < i < j < |chain| ==> chain[i].proofOfStake != proofOfStake || chain[j].proofOfStake != proofOfStake
    ensures NextTargetV2(l, p, chain, proofOfStake) == GetCompact(Limit(l, proofOfStake))
  {
    hide GetCompact, SetCompact, Scaled;
    if chain != [] {
      LastOfKindIs(chain, proofOfStake);
      var prev := LastOfKind(chain, proofOfStake);
      if prev > 0 {
        LastOfKindIs(chain[..prev], proofOfStake);
        assert forall i :: 0 <= i < prev ==> chain[..prev][i] == chain[i];
      }
    }
  }

  lemma SizeOfLimit(x: nat)
    requires x < Pow256(32)
    ensures Size(x) <= 255
  {
    MpiLength(x);
    hide Pow256, ToMpi;
    if Size(x) > 34 { Pow256Monotone(32, Size(x) - 2); }
  }

  /** What is required after targets in range is itself in range. */
  lemma NextInRange(l: Limits, p: Pace, chain: seq<Header>, proofOfStake: bool)
    requires LimitsOk(l) && PaceOk(p) && BitsOk(chain)
    requires forall i :: 0 <= i < |chain| ==> TargetInRange(l, chain[i])
    ensures var bits := NextTargetV2(l, p, chain, proofOfStake);
            bits < TWO_32 && 0 <= SetCompact(bits) <= Limit(l, proofOfStake)
  {
    hide GetCompact, SetCompact, Scaled, Pow256, Size;
    var limit := Limit(l, proofOfStake);
    SizeOfLimit(limit);
    DecodeBounded(limit);
    if chain != [] {
      LastOfKindIs(chain, proofOfStake);
      var prev := LastOfKind(chain, proofOfStake);
      if prev > 0 {
        LastOfKindIs(chain[..prev], proofOfStake);
        var prevPrev := LastOfKind(chain[..prev], proofOfStake);
        if prevPrev > 0 {
          var target, actual := SetCompact(chain[prev].bits), chain[prev].time - chain[prevPrev].time;
          ScaledNonNegative(p, target, |chain| - prev, actual, proofOfStake);
          var x := Min(Scaled(p, target, |chain| - prev, actual, proofOfStake), limit);
          SizeOfLimit(x);
          DecodeBounded(x);
        }
      }
    }
  }

  /** From height from on every block carries the bits required of it, whatever the pace was at the time. */
  ghost predicate V2From(l: Limits, paces: seq<Pace>, chain: seq<Header>, from: nat) {
    && |paces| == |chain| && BitsOk(chain) && (forall i :: 0 <= i < |chain| ==> PaceOk(paces[i]))
    && forall i :: from <= i < |chain| ==> chain[i].bits == NextTargetV2(l, paces[i], chain[..i], chain[i].proofOfStake)
  }

  /** Along every chain of version 2 blocks that starts from targets in range, every target stays in range. */
  lemma {:induction false} TargetsStayInRange(l: Limits, paces: seq<Pace>, chain: seq<Header>, from: nat, n: nat)
    requires LimitsOk(l) && V2From(l, paces, chain, from) && n <= |chain|
    requires forall i :: 0 <= i < from && i < |chain| ==> TargetInRange(l, chain[i])
    ensures forall i :: 0 <= i < n ==> TargetInRange(l, chain[i])
    decreases n
  {
    hide NextTargetV2, SetCompact;
    if n > 0 {
      var k := n - 1;
      TargetsStayInRange(l, paces, chain, from, k);
      if k >= from {
        forall i | 0 <= i < k ensures TargetInRange(l, chain[..k][i]) { assert TargetInRange(l, chain[i]); }
        NextInRange(l, paces[k], chain[..k], chain[k].proofOfStake);
      }
    }
  }

  /** The code: find the last two blocks of the kind, scale, cap at the limit. */
  method GetNextTargetRequiredV2(l: Limits, p: Pace, chain: seq<Header>, proofOfStake: bool) returns (bits: nat)
    requires PaceOk(p) && BitsOk(chain)
    ensures bits == NextTargetV2(l, p, chain, proofOfStake)
  {
    var limit := Limit(l, proofOfStake);
    if chain == [] { return GetCompact(limit); }
    LastOfKindIs(chain, proofOfStake);
    var prev := GetLastBlockIndex(chain, proofOfStake);
    if prev == 0 { return GetCompact(limit); }
    LastOfKindIs(chain[..prev], proofOfStake);
    var prevPrev := GetLastBlockIndex(chain[..prev], proofOfStake);
    if prevPrev == 0 { return GetCompact(limit); }
    var next := Scaled(p, SetCompact(chain[prev].bits), |chain| - prev, chain[prev].time - chain[prevPrev].time, proofOfStake);
    if next > limit { next := limit; }
    return GetCompact(next);
  }
}

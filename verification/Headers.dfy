/** The trust a block adds to its chain, and the tests of AcceptBlock that a block's bits and time must pass. */
module Headers {
  import opened Basics
  import opened Arithmetic
  import opened Bytes
  import opened Compact
  import opened Retarget
  import opened MedianTime

  /** GetBlockTrust: nothing for a target that is not positive; else more the smaller the target, for proof of work
      measured by the limit and at least 1. */
  function BlockTrust(l: Limits, h: Header): nat
    requires h.bits < TWO_32
  {
    var target := SetCompact(h.bits);
    if target <= 0 then 0
    else if h.proofOfStake then Share(Pow256(32), target)
    else Max(Share(l.work, target), 1)
  }

  function Share(x: nat, target: nat): nat { x / (target + 1) }

  /** The trust of a positive target is the number of times target + 1 goes into 2^256, or for proof of work into the
      limit, but then at least 1. */
  lemma TrustIs(l: Limits, h: Header)
    requires h.bits < TWO_32 && SetCompact(h.bits) > 0
    ensures var t, d := BlockTrust(l, h), SetCompact(h.bits) + 1;
            && (h.proofOfStake ==> t * d <= Pow256(32) < (t + 1) * d)
            && (!h.proofOfStake && d <= l.work ==> t * d <= l.work < (t + 1) * d)
            && (!h.proofOfStake && d > l.work ==> t == 1)
  {
    hide Pow256, SetCompact;
    var d := SetCompact(h.bits) + 1;
    DivisionIs(Pow256(32), d);
    DivisionIs(l.work, d);
    if d <= l.work { DivMonotone(d, l.work, d); }
  }

  lemma DivisionIs(x: nat, d: nat)
    requires d > 0
    ensures x / d * d <= x < (x / d + 1) * d
  {
    assert x == x / d * d + x % d;
  }

  /** A block with a target in range adds trust, if and only if the target is positive. */
  lemma TrustPositive(l: Limits, h: Header)
    requires LimitsOk(l) && TargetInRange(l, h)
    ensures BlockTrust(l, h) > 0 <==> SetCompact(h.bits) > 0
  {
    hide Pow256, SetCompact;
    var target := SetCompact(h.bits);
    if target > 0 { DivMonotone(target + 1, Pow256(32), target + 1); }
  }

  /** A smaller target never adds less trust. */
  lemma TrustMonotone(l: Limits, h: Header, h': Header)
    requires h.bits < TWO_32 && h'.bits < TWO_32 && h.proofOfStake == h'.proofOfStake
    requires 0 < SetCompact(h.bits) <= SetCompact(h'.bits)
    ensures BlockTrust(l, h) >= BlockTrust(l, h')
  {
    hide Pow256, SetCompact;
    var a, b := SetCompact(h.bits) + 1, SetCompact(h'.bits) + 1;
    SmallerDivisor(Pow256(32), a, b);
    SmallerDivisor(l.work, a, b);
  }

  lemma SmallerDivisor(x: nat, a: nat, b: nat)
    requires 0 < a <= b
    ensures x / b <= x / a
  {
    var q := x / b;
    assert x == q * b + x % b;
    MulLe(a, b, q);
    DivUnique(q * a, a, q, 0);
    DivMonotone(q * a, x, a);
  }

  /** A proof-of-work block at the limit adds 1. */
  lemma LimitTrust(l: Limits, time: nat)
    requires LimitsOk(l) && Size(l.work) >= 3
    ensures GetCompact(l.work) < TWO_32 && BlockTrust(l, Header(false, time, GetCompact(l.work))) == 1
  {
    hide Pow256, GetCompact, SetCompact, Size, Truncated;
    var x := l.work;
    SizeOfLimit(x);
    DecodeTruncates(x);
    var target := SetCompact(GetCompact(x));
    HalfKept(x);
    LessThanTwice(x, target + 1);
  }

  lemma LessThanTwice(x: nat, d: nat)
    requires x < 2 * d
    ensures x / d <= 1
  {
    DivUnique(if x < d then x else x - d, d, 0, if x < d then x else x - d);
    if x >= d { DivUnique(x, d, 1, x - d); }
  }

  /** Cutting a number to its first three bytes keeps more than half of it. */
  lemma HalfKept(x: nat)
    requires Size(x) >= 3
    ensures 0 < Truncated(x) && x < 2 * (Truncated(x) + 1)
  {
    var p := Pow256(Size(x) - 3);
    TruncatedBound(x);
    Pow256Sum(1, Size(x) - 3);
    Pow256Small();
    hide Pow256, Size;
    assert x % p < p;
  }

  // ------------------------------------------------------------ bits and time

  function Times(chain: seq<Header>): seq<int> { seq(|chain|, i requires 0 <= i < |chain| => chain[i].time) }

  /** The block after the chain has the bits required of it and is later than the median of its predecessors. */
  ghost predicate HeaderOk(l: Limits, p: Pace, chain: seq<Header>, h: Header)
    requires PaceOk(p) && BitsOk(chain) && chain != []
  {
    h.bits == NextTargetV2(l, p, chain, h.proofOfStake) && h.time > MedianTimePast(Times(chain))
  }

  /** n proof-of-work blocks at the limit, each as long after the one before as is aimed at. */
  function Regular(l: Limits, p: Pace, start: nat, n: nat): seq<Header> {
    seq(n, i requires 0 <= i < n => Header(false, start + p.spacing * i, GetCompact(l.work)))
  }

  lemma {:induction false} LessAll(s: seq<int>, m: int)
    requires forall i :: 0 <= i < |s| ==> s[i] < m
    ensures Less(s, m) == |s|
  {
    if s != [] { LessAll(s[..|s| - 1], m); }
  }

  lemma MedianBelow(times: seq<int>, t: int)
    requires times != [] && forall i :: 0 <= i < |times| ==> times[i] < t
    ensures MedianTimePast(times) < t
  {
    hide Less, Median;
    LessAll(Window(times), t);
    MedianRank(Window(times), t);
  }

  /** After such blocks the limit is required again. */
  lemma RegularTarget(l: Limits, p: Pace, start: nat, n: nat)
    requires LimitsOk(l) && PaceOk(p) && n > 0
    ensures GetCompact(l.work) < TWO_32 && BitsOk(Regular(l, p, start, n))
    ensures NextTargetV2(l, p, Regular(l, p, start, n), false) == GetCompact(l.work)
  {
    hide Pow256, GetCompact, SetCompact, Size, Scaled;
    var chain := Regular(l, p, start, n);
    SizeOfLimit(l.work);
    DecodeBounded(l.work);
    FitsWhenShort(l.work);
    assert LastOfKind(chain, false) == n - 1;
    if n > 2 {
      assert LastOfKind(chain[..n - 1], false) == n - 2;
      var target := SetCompact(GetCompact(l.work));
      ScaledDirection(p, target, 1, p.spacing, false);
      assert chain[n - 1].time - chain[n - 2].time == p.spacing by { Consecutive(p.spacing, n); }
    }
  }

  lemma Consecutive(s: nat, n: nat)
    requires n >= 2
    ensures s * (n - 1) - s * (n - 2) == s
  {
  }

  /** A block that carries on a regular chain passes. */
  lemma RegularOk(l: Limits, p: Pace, start: nat, n: nat)
    requires LimitsOk(l) && PaceOk(p) && n > 0
    ensures BitsOk(Regular(l, p, start, n))
    ensures HeaderOk(l, p, Regular(l, p, start, n), Header(false, start + p.spacing * n, GetCompact(l.work)))
  {
    RegularTarget(l, p, start, n);
    hide NextTargetV2, GetCompact, MedianTimePast;
    var times := Times(Regular(l, p, start, n));
    forall i | 0 <= i < n ensures times[i] < start + p.spacing * n { EarlierProduct(p.spacing, i, n); }
    MedianBelow(times, start + p.spacing * n);
  }

  lemma EarlierProduct(s: nat, i: nat, n: nat)
    requires s > 0 && i < n
    ensures s * i < s * n
  {
    MulLe(i + 1, n, s);
  }
}

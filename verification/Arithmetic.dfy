/** Facts about multiplication and division that the solver needs spelled out. */
module Arithmetic {
  const TWO_32: nat := 0x1_0000_0000

  function Pow2(n: nat): (r: nat)
    ensures r > 0
  {
    if n == 0 then 1 else 2 * Pow2(n - 1)
  }

  lemma MulLe(a: int, b: int, p: nat)
    requires a <= b
    ensures a * p <= b * p
  {
  }

  lemma ScaledSum(v: int, p: int, r: int, k: int)
    ensures (v * p + r) * k == v * (k * p) + r * k
  {
  }

  lemma DivUnique(x: nat, d: nat, q: nat, r: nat)
    requires d > 0 && x == q * d + r && r < d
    ensures x / d == q && x % d == r
  {
    var q' := x / d;
    assert x == q' * d + x % d;
    assert q' < q ==> (q' + 1) * d <= q * d;
    assert q < q' ==> (q + 1) * d <= q' * d;
  }

  lemma DivMonotone(x: nat, y: nat, p: nat)
    requires x <= y && p > 0
    ensures x / p <= y / p
  {
    var q, q' := x / p, y / p;
    assert x == q * p + x % p && y == q' * p + y % p;
    if q' < q { MulLe(q' + 1, q, p); }
    assert (q' + 1) * p == q' * p + p;
  }

  /** Division that truncates toward zero. */
  function Quotient(a: int, b: int): int
    requires b > 0
  {
    if a < 0 then 0 - (0 - a) / b else a / b
  }
}

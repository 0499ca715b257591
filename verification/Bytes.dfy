/** Integers as big-endian bytes, and the signed byte format of the big-number library: the magnitude with the
    sign in the top bit of the first byte, a zero byte in front where the magnitude needs that bit itself. */
module Bytes {
  import opened Arithmetic

  type byte = x: int | 0 <= x < 256

  function Pow256(n: nat): (r: nat)
    ensures r > 0
  {
    if n == 0 then 1 else 256 * Pow256(n - 1)
  }

  /** The value of big-endian bytes. */
  function Value(b: seq<byte>): nat {
    if b == [] then 0 else Value(b[..|b| - 1]) * 256 + b[|b| - 1] as int
  }

  /** The bytes of x without leading zeros. */
  function Digits(x: nat): seq<byte> {
    if x == 0 then [] else Digits(x / 256) + [x % 256]
  }

  lemma {:induction false} Pow256Sum(m: nat, n: nat)
    ensures Pow256(m + n) == Pow256(m) * Pow256(n)
  {
    if m > 0 {
      Pow256Sum(m - 1, n);
      ScaledSum(Pow256(n), Pow256(m - 1), 0, 256);
    }
  }

  lemma {:induction false} ValueBound(b: seq<byte>)
    ensures Value(b) < Pow256(|b|)
  {
    if b != [] { ValueBound(b[..|b| - 1]); }
  }

  lemma {:induction false} ValueConcat(a: seq<byte>, b: seq<byte>)
    ensures Value(a + b) == Value(a) * Pow256(|b|) + Value(b)
  {
    if b == [] {
      assert a + b == a;
    } else {
      var init := b[..|b| - 1];
      ValueConcat(a, init);
      assert (a + b)[..|a + b| - 1] == a + init;
      assert Pow256(|b|) == 256 * Pow256(|init|);
      ScaledSum(Value(a), Pow256(|init|), Value(init), 256);
    }
  }

  lemma ValueOne(x: byte)
    ensures Value([x]) == x as int
  {
    assert [x][..0] == [];
  }

  /** The first byte weighs the most. */
  lemma ValueHead(b: seq<byte>)
    requires b != []
    ensures Value(b) == (b[0] as int) * Pow256(|b| - 1) + Value(b[1..])
  {
    assert b == [b[0]] + b[1..];
    ValueConcat([b[0]], b[1..]);
    ValueOne(b[0]);
  }

  lemma {:induction false} ValueZeros(b: seq<byte>)
    requires forall i :: 0 <= i < |b| ==> b[i] == 0
    ensures Value(b) == 0
  {
    if b != [] { ValueZeros(b[..|b| - 1]); }
  }

  lemma {:induction false} DigitsValue(x: nat)
    ensures Value(Digits(x)) == x && (x > 0 ==> Digits(x) != [] && Digits(x)[0] != 0)
  {
    if x > 0 {
      DigitsValue(x / 256);
      assert Digits(x)[..|Digits(x)| - 1] == Digits(x / 256);
    }
  }

  /** Bytes without a leading zero are the digits of their value. */
  lemma {:induction false} ValueDigits(b: seq<byte>)
    requires b != [] ==> b[0] != 0
    ensures Digits(Value(b)) == b
  {
    if b != [] {
      var init, x := b[..|b| - 1], Value(b);
      ValueDigits(init);
      assert x / 256 == Value(init) && x % 256 == b[|b| - 1] as int;
      if init == [] { assert x == b[0] as int; } else { ValuePositive(init); }
      assert b == init + [b[|b| - 1]];
    }
  }

  lemma ValuePositive(b: seq<byte>)
    requires b != [] && b[0] != 0
    ensures Value(b) >= Pow256(|b| - 1)
  {
    hide Value, Pow256;
    ValueHead(b);
    MulLe(1, b[0] as int, Pow256(|b| - 1));
  }

  // ------------------------------------------------------------ the signed format

  function Abs(x: int): nat { if x < 0 then -x else x }

  function Extended(digits: seq<byte>): seq<byte> {
    if digits != [] && digits[0] >= 0x80 then [0] + digits else digits
  }

  function ToMpi(x: int): seq<byte> {
    DigitsValue(Abs(x));
    var e := Extended(Digits(Abs(x)));
    if x < 0 then e[0 := e[0] + 0x80] else e
  }

  function FromMpi(b: seq<byte>): int {
    if b == [] then 0
    else if b[0] >= 0x80 then 0 - Value(b[0 := b[0] - 0x80])
    else Value(b)
  }

  lemma ExtendedValue(d: seq<byte>)
    ensures Value(Extended(d)) == Value(d)
  {
    if d != [] && d[0] >= 0x80 {
      ValueHead([0] + d);
      assert ([0] + d)[1..] == d;
    }
  }

  /** Reading the format back gives the number, of either sign. */
  lemma MpiRoundTrip(x: int)
    ensures FromMpi(ToMpi(x)) == x
  {
    DigitsValue(Abs(x));
    ExtendedValue(Digits(Abs(x)));
    var e := Extended(Digits(Abs(x)));
    if x < 0 {
      assert ToMpi(x)[0 := ToMpi(x)[0] - 0x80] == e;
    }
  }

  lemma HeadBounds(b: seq<byte>, k: nat)
    requires b != []
    ensures b[0] as int < k ==> Value(b) < k * Pow256(|b| - 1)
    ensures b[0] as int >= k ==> Value(b) >= k * Pow256(|b| - 1)
  {
    hide Value, Pow256;
    ValueHead(b);
    ValueBound(b[1..]);
    var p, h := Pow256(|b| - 1), b[0] as int;
    if h < k { MulLe(h + 1, k, p); } else { MulLe(k, h, p); }
    assert (h + 1) * p == h * p + p;
  }

  /** The length of the format of a non-negative number: enough for the number and a clear top bit, no more. */
  lemma MpiLength(x: nat)
    ensures Value(ToMpi(x)) == x && (ToMpi(x) == [] <==> x == 0)
    ensures |ToMpi(x)| >= 1 ==> ToMpi(x)[0] < 0x80 && x < 128 * Pow256(|ToMpi(x)| - 1)
    ensures |ToMpi(x)| >= 2 ==> x >= 128 * Pow256(|ToMpi(x)| - 2)
  {
    DigitsValue(x);
    hide Pow256, Value;
    var d, b := Digits(x), ToMpi(x);
    ExtendedValue(d);
    if b != [] { HeadBounds(b, 0x80); }
    if |b| >= 2 {
      if d[0] >= 0x80 { HeadBounds(d, 0x80); } else { MpiLong(d); }
    }
  }

  lemma MpiLong(d: seq<byte>)
    requires |d| >= 2 && d[0] != 0
    ensures Value(d) >= 128 * Pow256(|d| - 2)
  {
    ValuePositive(d);
  }
}

/** Compact targets: a 32-bit number holding the length and the first three bytes of a big number. */
module Compact {
  import opened Arithmetic
  import opened Bytes

  const TWO_23: nat := 0x80_0000
  const TWO_24: nat := 0x100_0000

  /** The length goes into the top byte of a 32-bit word, so only its last eight bits are kept. */
  function GetCompact(x: int): nat {
    var b := ToMpi(x);
    |b| % 256 * TWO_24 + LeadBytes(b)
  }

  function LeadBytes(b: seq<byte>): nat {
    (if |b| >= 1 then (b[0] as int) * 65536 else 0) +
    (if |b| >= 2 then (b[1] as int) * 256 else 0) +
    (if |b| >= 3 then b[2] as int else 0)
  }

  function SetCompact(c: nat): int
    requires c < TWO_32
  {
    FromMpi(Unpacked(c))
  }

  function Unpacked(c: nat): seq<byte> {
    seq(c / TWO_24, i => if i == 0 then c / 65536 % 256 else if i == 1 then c / 256 % 256 else if i == 2 then c % 256 else 0)
  }

  // ------------------------------------------------------------ as arithmetic

  /** The bytes a number needs. */
  function Size(x: nat): nat { |ToMpi(x)| }

  /** The first three of n bytes, read as a number. */
  function Lead(x: nat, n: nat): int {
    if n >= 3 then x / Pow256(n - 3) else x * Pow256(3 - n)
  }

  /** n bytes of which the first three are given and the others zero. */
  function Spread(lead: int, n: nat): int {
    if n >= 3 then lead * Pow256(n - 3) else lead / Pow256(3 - n)
  }

  lemma ValueThree(b: seq<byte>)
    requires |b| == 3
    ensures Value(b) == (b[0] as int) * 65536 + (b[1] as int) * 256 + b[2] as int
  {
    var b2 := b[..2];
    var b1 := b2[..1];
    assert b1[..0] == [];
    assert Value(b1) == b1[0] as int;
    assert Value(b2) == Value(b1) * 256 + b2[1] as int;
  }

  lemma ValueTwo(b: seq<byte>)
    requires |b| == 2
    ensures Value(b) == (b[0] as int) * 256 + b[1] as int
  {
    var b1 := b[..1];
    assert b1[..0] == [];
    assert Value(b1) == b1[0] as int;
  }

  lemma Pow256Small()
    ensures Pow256(0) == 1 && Pow256(1) == 256 && Pow256(2) == 65536 && Pow256(3) == TWO_24
  {
    assert Pow256(1) == 256 * Pow256(0);
    assert Pow256(2) == 256 * Pow256(1);
  }

  /** The first three bytes are what is left of the number after dropping the others. */
  lemma LeadIs(b: seq<byte>)
    ensures LeadBytes(b) == Lead(Value(b), |b|)
  {
    Pow256Small();
    if |b| >= 3 {
      assert b == b[..3] + b[3..];
      ValueConcat(b[..3], b[3..]);
      ValueThree(b[..3]);
      ValueBound(b[3..]);
      DivUnique(Value(b), Pow256(|b| - 3), Value(b[..3]), Value(b[3..]));
    } else if |b| == 2 {
      ValueTwo(b);
    } else if |b| == 1 {
      assert b[..0] == [] && Value(b) == b[0] as int;
    }
  }

  /** Length and leading bytes, side by side. */
  lemma CompactIs(x: nat)
    ensures GetCompact(x) == Size(x) % 256 * TWO_24 + Lead(x, Size(x)) && 0 <= Lead(x, Size(x)) < TWO_23
  {
    MpiLength(x);
    LeadIs(ToMpi(x));
  }

  lemma UnpackedIs(n: nat, lead: nat)
    requires n <= 255 && lead < TWO_23
    ensures n * TWO_24 + lead < TWO_32
    ensures var b := Unpacked(n * TWO_24 + lead);
            && |b| == n
            && (n >= 1 ==> b[0] as int == lead / 65536) && (n >= 2 ==> b[1] as int == lead / 256 % 256)
            && (n >= 3 ==> b[2] as int == lead % 256 && forall i :: 3 <= i < n ==> b[i] == 0)
  {
    var c := n * TWO_24 + lead;
    DivUnique(c, TWO_24, n, lead);
    DivUnique(c, 65536, n * 256 + lead / 65536, lead % 65536);
    DivUnique(c, 256, n * 65536 + lead / 256, lead % 256);
    DivUnique(n * 256 + lead / 65536, 256, n, lead / 65536);
    DivUnique(n * 65536 + lead / 256, 256, n * 256 + lead / 65536, lead / 256 % 256);
  }

  lemma SpreadValue(b: seq<byte>, lead: nat)
    requires |b| >= 1 ==> b[0] as int == lead / 65536
    requires |b| >= 2 ==> b[1] as int == lead / 256 % 256
    requires |b| >= 3 ==> b[2] as int == lead % 256 && forall i :: 3 <= i < |b| ==> b[i] == 0
    requires lead < TWO_23
    ensures Value(b) == Spread(lead, |b|)
  {
    Pow256Small();
    hide Value, Pow256;
    if |b| >= 3 {
      assert b == b[..3] + b[3..];
      ValueConcat(b[..3], b[3..]);
      ValueThree(b[..3]);
      ValueZeros(b[3..]);
      assert Value(b[..3]) == lead;
    } else if |b| == 2 {
      ValueTwo(b);
    } else if |b| == 1 {
      ValueOne(b[0]);
      assert b == [b[0]];
    } else {
      ValueZeros(b);
    }
  }

  lemma SetCompactIs(n: nat, lead: nat)
    requires n <= 255 && lead < TWO_23
    ensures n * TWO_24 + lead < TWO_32 && SetCompact(n * TWO_24 + lead) == Spread(lead, n)
  {
    hide Unpacked, Spread, Value;
    UnpackedIs(n, lead);
    SpreadValue(Unpacked(n * TWO_24 + lead), lead);
    if n == 0 { EmptySpread(lead); }
  }

  lemma EmptySpread(lead: nat)
    requires lead < TWO_23
    ensures Spread(lead, 0) == 0
  {
    Pow256Small();
  }

  // ------------------------------------------------------------ order and loss

  lemma {:induction false} Pow256Monotone(m: nat, n: nat)
    requires m <= n
    ensures Pow256(m) <= Pow256(n)
  {
    if m < n { Pow256Monotone(m, n - 1); }
  }

  /** A number in the range of length n has length n. */
  lemma SizeIs(x: nat, n: nat)
    requires n >= 1 ==> x < 128 * Pow256(n - 1)
    requires n >= 2 ==> x >= 128 * Pow256(n - 2)
    requires n <= 1 ==> (x == 0 <==> n == 0)
    ensures Size(x) == n
  {
    hide ToMpi, Pow256;
    MpiLength(x);
    var m := Size(x);
    if m < n && m >= 1 { Pow256Monotone(m - 1, n - 2); }
    if n < m && n >= 1 { Pow256Monotone(n - 1, m - 2); }
  }

  lemma SizeMonotone(x: nat, y: nat)
    requires x <= y
    ensures Size(x) <= Size(y)
  {
    hide ToMpi, Pow256;
    MpiLength(x);
    MpiLength(y);
    if Size(x) > Size(y) >= 1 { Pow256Monotone(Size(y) - 1, Size(x) - 2); }
  }

  /** The number with every byte below its first three set to zero. */
  function Truncated(x: nat): int {
    if Size(x) >= 3 then x - x % Pow256(Size(x) - 3) else x
  }

  lemma SpreadLead(x: nat)
    ensures Spread(Lead(x, Size(x)), Size(x)) == Truncated(x)
  {
    var n := Size(x);
    if n >= 3 {
      var p := Pow256(n - 3);
      assert x == x / p * p + x % p;
    } else {
      var p := Pow256(3 - n);
      DivUnique(x * p, p, x, 0);
    }
  }

  lemma SpreadBound(lead: nat, m: nat)
    requires lead < TWO_23 && m <= 255
    ensures Spread(lead, m) < 128 * Pow256(254)
  {
    Pow256Small();
    if m >= 3 {
      Pow256Sum(2, m - 3);
      Pow256Monotone(m - 1, 254);
      hide Pow256;
      MulLe(lead, TWO_23 - 1, Pow256(m - 3));
    } else {
      Pow256Monotone(2, 254);
      hide Pow256;
      QuotientLe(lead, Pow256(3 - m));
    }
  }

  lemma QuotientLe(x: nat, p: nat)
    requires p > 0
    ensures 0 <= x / p <= x
  {
    var q := x / p;
    assert x == q * p + x % p;
    if q < 0 { MulLe(q, -1, p); } else { MulLe(1, p, q); }
  }

  lemma TruncatedBound(x: nat)
    requires Size(x) >= 3
    ensures 128 * Pow256(Size(x) - 2) <= Truncated(x) <= x
    ensures Truncated(x) >= 0 && Truncated(x) / Pow256(Size(x) - 3) == x / Pow256(Size(x) - 3)
  {
    MpiLength(x);
    Pow256Sum(1, Size(x) - 3);
    Pow256Small();
    hide Pow256, ToMpi;
    Floored(x, Pow256(Size(x) - 3), 32768);
  }

  lemma Floored(x: nat, p: nat, k: nat)
    requires p > 0 && x >= k * p
    ensures k * p <= x - x % p && (x - x % p) / p == x / p
  {
    var q := x / p;
    assert x == q * p + x % p;
    if q < k { MulLe(q + 1, k, p); }
    assert (q + 1) * p == q * p + p;
    MulLe(k, q, p);
    DivUnique(q * p, p, q, 0);
  }

  /** Encoding and decoding drops exactly the bytes below the first three, if and only if the length fits its
      byte. */
  lemma DecodeTruncates(x: nat)
    ensures GetCompact(x) < TWO_32
    ensures SetCompact(GetCompact(x)) == Truncated(x) <==> Size(x) <= 255
  {
    var n := Size(x);
    CompactIs(x);
    hide ToMpi, Pow256, GetCompact, SetCompact, Lead, Spread;
    SetCompactIs(n % 256, Lead(x, n));
    if n <= 255 {
      SpreadLead(x);
    } else {
      SpreadBound(Lead(x, n), n % 256);
      TruncatedBound(x);
      Pow256Monotone(254, n - 2);
    }
  }

  /** A number taken through its compact form. */
  function Quantised(x: nat): nat {
    CompactIs(x);
    SetCompactIs(Size(x) % 256, Lead(x, Size(x)));
    SpreadNonNegative(Lead(x, Size(x)), Size(x) % 256);
    SetCompact(GetCompact(x))
  }

  lemma SpreadNonNegative(lead: nat, n: nat)
    ensures Spread(lead, n) >= 0
  {
    hide Pow256;
    if n >= 3 { MulLe(0, lead, Pow256(n - 3)); } else { QuotientLe(lead, Pow256(3 - n)); }
  }

  /** Decoding never gives more than was encoded, whatever the length. */
  lemma DecodeBounded(x: nat)
    ensures GetCompact(x) < TWO_32 && 0 <= SetCompact(GetCompact(x)) <= x
  {
    var n := Size(x);
    DecodeTruncates(x);
    CompactIs(x);
    hide ToMpi, Pow256, GetCompact, SetCompact, Lead, Spread;
    SetCompactIs(n % 256, Lead(x, n));
    SpreadNonNegative(Lead(x, n), n % 256);
    if n >= 3 { TruncatedBound(x); }
    if n > 255 {
      SpreadBound(Lead(x, n), n % 256);
      Pow256Monotone(254, n - 2);
    }
  }

  /** The leading bytes survive the length they are stored with: there is room for all three, or the ones there
      is no room for are zero. */
  predicate Fits(lead: int, m: nat) { m >= 3 || lead % Pow256(3 - m) == 0 }

  lemma ReencodeLong(lead: nat, m: nat)
    requires 0x8000 <= lead < TWO_23 && 3 <= m <= 255
    ensures Spread(lead, m) >= 0 && GetCompact(Spread(lead, m)) == m * TWO_24 + lead
  {
    var p := Pow256(m - 3);
    Pow256Sum(1, m - 3);
    Pow256Sum(2, m - 3);
    Pow256Small();
    hide Pow256, ToMpi, GetCompact;
    MulLe(0x8000, lead, p);
    MulLe(lead, TWO_23 - 1, p);
    SizeIs(lead * p, m);
    CompactIs(lead * p);
    DivUnique(lead * p, p, lead, 0);
  }

  lemma ReencodeShort(lead: nat, m: nat)
    requires 0x8000 <= lead < TWO_23 && m < 3
    ensures Spread(lead, m) >= 0 && (GetCompact(Spread(lead, m)) == m * TWO_24 + lead <==> Fits(lead, m))
  {
    Pow256Small();
    hide Pow256, ToMpi, GetCompact;
    var y := lead / Pow256(3 - m);
    if y == 0 { SizeIs(0, 0); } else { SizeIs(y, m); }
    CompactIs(y);
  }

  lemma ReencodeWord(lead: nat, m: nat)
    requires 0x8000 <= lead < TWO_23 && m <= 255
    ensures m * TWO_24 + lead < TWO_32
    ensures GetCompact(SetCompact(m * TWO_24 + lead)) == m * TWO_24 + lead <==> Fits(lead, m)
  {
    hide Pow256, GetCompact, SetCompact, Spread, Fits;
    SetCompactIs(m, lead);
    FitsLong(lead, m);
    if m >= 3 { ReencodeLong(lead, m); } else { ReencodeShort(lead, m); }
  }

  /** Encoding a decoded target again changes nothing, if and only if its leading bytes fit the stored length. */
  lemma ReencodeIdempotent(x: nat)
    ensures GetCompact(x) < TWO_32
    ensures GetCompact(SetCompact(GetCompact(x))) == GetCompact(x) <==> Fits(Lead(x, Size(x)), Size(x) % 256)
  {
    hide *;
    CompactIs(x);
    if Size(x) < 3 {
      LeadOfShort(x);
      SetCompactIs(Size(x), Lead(x, Size(x)));
    } else {
      LeadLarge(x);
      ReencodeWord(Lead(x, Size(x)), Size(x) % 256);
    }
  }

  lemma FitsLong(lead: int, m: nat)
    ensures m >= 3 ==> Fits(lead, m)
  {
  }

  /** A number of less than three bytes is kept whole. */
  lemma LeadOfShort(x: nat)
    requires Size(x) < 3
    ensures Spread(Lead(x, Size(x)), Size(x)) == x && Fits(Lead(x, Size(x)), Size(x))
  {
    SpreadLead(x);
    hide Pow256, ToMpi;
    DivUnique(x * Pow256(3 - Size(x)), Pow256(3 - Size(x)), x, 0);
  }

  lemma LeadLarge(x: nat)
    requires Size(x) >= 3
    ensures Lead(x, Size(x)) >= 0x8000
  {
    MpiLength(x);
    Pow256Sum(1, Size(x) - 3);
    Pow256Small();
    var p := Pow256(Size(x) - 3);
    hide Pow256, ToMpi;
    DivMonotone(0x8000 * p, x, p);
    DivUnique(0x8000 * p, p, 0x8000, 0);
  }

  /** A length that fits its byte is enough. */
  lemma FitsWhenShort(x: nat)
    requires Size(x) <= 255
    ensures GetCompact(x) < TWO_32 && GetCompact(SetCompact(GetCompact(x))) == GetCompact(x)
  {
    hide ToMpi, Pow256, GetCompact, SetCompact, Lead;
    ReencodeIdempotent(x);
    if Size(x) < 3 { LeadOfShort(x); }
  }

  lemma OrderStep(x: nat, y: nat)
    requires x <= y && Size(y) <= 255
    ensures GetCompact(x) <= GetCompact(y)
  {
    hide ToMpi, GetCompact;
    SizeMonotone(x, y);
    CompactIs(x);
    CompactIs(y);
    if Size(x) == Size(y) { LeadMonotone(x, y, Size(x)); }
  }

  /** The least number of length 256 has a compact form below that of 1. */
  lemma FirstWrap()
    ensures 1 <= 128 * Pow256(254) && GetCompact(128 * Pow256(254)) < GetCompact(1)
  {
    hide Pow256, ToMpi, GetCompact;
    var w := 128 * Pow256(254);
    Pow256Sum(1, 253);
    Pow256Sum(1, 254);
    Pow256Small();
    SizeIs(w, 256);
    SizeIs(1, 1);
    CompactIs(w);
    CompactIs(1);
    DivUnique(w, Pow256(253), 0x8000, 0);
  }

  /** Up to n larger numbers have larger compact forms, if and only if the length of n fits its byte. */
  lemma OrderPreserved(n: nat)
    ensures Size(n) <= 255 <==> forall x: nat, y: nat :: x <= y <= n ==> GetCompact(x) <= GetCompact(y)
  {
    hide GetCompact, ToMpi, Pow256;
    if Size(n) <= 255 {
      forall x: nat, y: nat | x <= y <= n ensures GetCompact(x) <= GetCompact(y) {
        SizeMonotone(y, n);
        OrderStep(x, y);
      }
    } else {
      MpiLength(n);
      Pow256Monotone(254, Size(n) - 2);
      FirstWrap();
    }
  }

  lemma LeadMonotone(x: nat, y: nat, n: nat)
    requires x <= y
    ensures Lead(x, n) <= Lead(y, n)
  {
    if n >= 3 {
      DivMonotone(x, y, Pow256(n - 3));
    } else {
      MulLe(x, y, Pow256(3 - n));
    }
  }

  /** A length of 256 wraps to 0: the compact form then decodes to 0 and is below that of 1. */
  lemma LengthWraps()
    ensures Size(Pow256(255)) == 256
    ensures GetCompact(Pow256(255)) == 0x1_0000 && SetCompact(GetCompact(Pow256(255))) == 0
    ensures 1 < Pow256(255) && GetCompact(1) > GetCompact(Pow256(255))
  {
    hide Pow256, Size, Spread, GetCompact, SetCompact, ToMpi;
    var x := Pow256(255);
    Pow256Sum(1, 254);
    Pow256Sum(2, 253);
    Pow256Small();
    Pow256Monotone(1, 255);
    SizeIs(x, 256);
    SizeIs(1, 1);
    CompactIs(x);
    CompactIs(1);
    DivUnique(x, Pow256(253), 65536, 0);
    SetCompactIs(0, 65536);
    EmptySpread(65536);
  }
}

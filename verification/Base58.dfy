/** Base58 text: big-endian bytes as a number written with 58 letters, leading zero bytes as the first letter. */
module Base58 {
  import opened Basics
  import opened Arithmetic
  import opened Bytes
  import opened Sequences

  const ALPHABET: string := "123456789" + "ABCDEFGH" + "JKLMN" + "PQRSTUVWXYZ" + "abcdefghijk" + "mnopqrstuvwxyz"

  /** The letters come in six runs of consecutive characters. */
  function Letter(k: nat): char
    requires k < 58
  {
    if k < 9 then (49 + k) as char              // 1 to 9
    else if k < 17 then (65 + k - 9) as char    // A to H
    else if k < 22 then (74 + k - 17) as char   // J to N
    else if k < 33 then (80 + k - 22) as char   // P to Z
    else if k < 44 then (97 + k - 33) as char   // a to k
    else (109 + k - 44) as char                 // m to z
  }

  lemma LetterIs(k: nat)
    requires k < 58
    ensures |ALPHABET| == 58 && Letter(k) == ALPHABET[k]
  {
    if k < 9 {
      assert "123456789"[k] == Letter(k);
    } else if k < 17 {
      assert "ABCDEFGH"[k - 9] == Letter(k);
    } else if k < 22 {
      assert "JKLMN"[k - 17] == Letter(k);
    } else if k < 33 {
      assert "PQRSTUVWXYZ"[k - 22] == Letter(k);
    } else if k < 44 {
      assert "abcdefghijk"[k - 33] == Letter(k);
    } else {
      assert "mnopqrstuvwxyz"[k - 44] == Letter(k);
    }
  }

  /** The place of a letter in the alphabet, as strchr finds it. */
  function Place(c: char): Option<nat> {
    var n := c as int;
    if 49 <= n < 58 then Some(n - 49)
    else if 65 <= n < 73 then Some(n - 65 + 9)
    else if 74 <= n < 79 then Some(n - 74 + 17)
    else if 80 <= n < 91 then Some(n - 80 + 22)
    else if 97 <= n < 108 then Some(n - 97 + 33)
    else if 109 <= n < 123 then Some(n - 109 + 44)
    else None
  }

  lemma PlaceIs(c: char)
    ensures Place(c).Some? ==> Place(c).value < 58 && Letter(Place(c).value) == c
    ensures Place(c).None? ==> c !in ALPHABET
  {
    if c in ALPHABET {
      var k :| 0 <= k < |ALPHABET| && ALPHABET[k] == c;
      LetterIs(k);
    }
  }

  // ------------------------------------------------------------ numbers in letters

  predicate IsText(s: string) { forall i :: 0 <= i < |s| ==> Place(s[i]).Some? }

  function Number(s: string): nat
    requires IsText(s)
  {
    if s == [] then 0 else Number(s[..|s| - 1]) * 58 + Place(s[|s| - 1]).value
  }

  function Text(x: nat): string {
    if x == 0 then [] else Text(x / 58) + [Letter(x % 58)]
  }

  lemma TextSnoc(s: string, k: nat)
    requires IsText(s) && k < 58
    ensures IsText(s + [Letter(k)]) && Number(s + [Letter(k)]) == Number(s) * 58 + k
  {
    assert Place(Letter(k)) == Some(k);
    hide Place, Letter;
    assert (s + [Letter(k)])[..|s|] == s;
  }

  lemma NoText()
    ensures IsText([]) && Number([]) == 0
  {
  }

  lemma LeadLetter(k: nat)
    requires 0 < k < 58
    ensures Letter(k) != '1'
  {
  }

  lemma {:induction false} TextNumber(x: nat)
    ensures IsText(Text(x)) && Number(Text(x)) == x && (x > 0 ==> Text(x) != [] && Text(x)[0] != '1')
  {
    hide Place, Letter, Number, IsText;
    if x > 0 {
      TextNumber(x / 58);
      TextSnoc(Text(x / 58), x % 58);
      if x / 58 == 0 { LeadLetter(x); }
    } else {
      NoText();
    }
  }

  /** A text that does not start with the zero letter is the text of its number. */
  lemma {:induction false} NumberText(s: string)
    requires IsText(s) && (s != [] ==> s[0] != '1')
    ensures Text(Number(s)) == s && (s != [] ==> Number(s) > 0)
  {
    if s != [] {
      var init, k := s[..|s| - 1], Place(s[|s| - 1]).value;
      NumberText(init);
      PlaceIs(s[|s| - 1]);
      assert Number(s) / 58 == Number(init) && Number(s) % 58 == k;
      assert s == init + [s[|s| - 1]];
    }
  }

  /** Zero letters in front do not change the number. */
  lemma {:induction false} NumberPadded(n: nat, s: string)
    requires IsText(s)
    ensures IsText(Repeat('1', n) + s) && Number(Repeat('1', n) + s) == Number(s)
  {
    if s != [] {
      NumberPadded(n, s[..|s| - 1]);
      assert (Repeat('1', n) + s)[..n + |s| - 1] == Repeat('1', n) + s[..|s| - 1];
    } else if n > 0 {
      NumberPadded(n - 1, s);
      assert (Repeat('1', n) + s)[..n - 1] == Repeat('1', n - 1) + s;
    }
  }

  lemma ValuePadded(n: nat, b: seq<byte>)
    ensures Value(Repeat(0, n) + b) == Value(b)
  {
    var zeros: seq<byte> := Repeat(0, n);
    ValueConcat(zeros, b);
    ValueZeros(zeros);
  }

  // ------------------------------------------------------------ bytes and text

  function Encoded(b: seq<byte>): string { Repeat('1', Leading(0, b)) + Text(Value(b)) }

  function Decoded(s: string): seq<byte>
    requires IsText(s)
  {
    Repeat(0, Leading('1', s)) + Digits(Number(s))
  }

  /** Decoding an encoded byte string gives it back, leading zeros included. */
  lemma DecodedEncoded(b: seq<byte>)
    ensures IsText(Encoded(b)) && Decoded(Encoded(b)) == b
  {
    var n := Leading(0, b);
    LeadingSplit(0, b);
    var rest := b[n..];
    assert b == Repeat(0, n) + rest;
    ValuePadded(n, rest);
    ValueDigits(rest);
    TextNumber(Value(b));
    NumberPadded(n, Text(Value(b)));
    LeadingRepeat('1', n, Text(Value(b)));
  }

  /** Encoding what a text decodes to gives the text back. */
  lemma EncodedDecoded(s: string)
    requires IsText(s)
    ensures Encoded(Decoded(s)) == s
  {
    var n := Leading('1', s);
    LeadingSplit('1', s);
    var rest := s[n..];
    assert s == Repeat('1', n) + rest;
    NumberPadded(n, rest);
    NumberText(rest);
    DigitsValue(Number(s));
    ValuePadded(n, Digits(Number(s)));
    LeadingRepeat(0, n, Digits(Number(s)));
  }

  // ------------------------------------------------------------ white space

  /** isspace: blank, and the characters from tab to carriage return. */
  predicate IsSpace(c: char) { c == ' ' || 9 <= c as int <= 13 }

  predicate AllSpace(s: string) { forall i :: 0 <= i < |s| ==> IsSpace(s[i]) }

  function SkipSpace(s: string): string { if s != [] && IsSpace(s[0]) then SkipSpace(s[1..]) else s }

  function TextLength(s: string): nat { if s != [] && Place(s[0]).Some? then 1 + TextLength(s[1..]) else 0 }

  lemma {:induction false} SkipSpaceSplit(pre: string, s: string)
    requires AllSpace(pre) && (s != [] ==> !IsSpace(s[0]))
    ensures SkipSpace(pre + s) == s
  {
    if pre == [] {
      assert pre + s == s;
    } else {
      SkipSpaceSplit(pre[1..], s);
      assert (pre + s)[1..] == pre[1..] + s;
    }
  }

  lemma {:induction false} SkipSpaceIs(s: string)
    ensures |SkipSpace(s)| <= |s|
    ensures var k := |s| - |SkipSpace(s)|; AllSpace(s[..k]) && SkipSpace(s) == s[k..]
  {
    if s != [] && IsSpace(s[0]) {
      SkipSpaceIs(s[1..]);
      var k := |s| - |SkipSpace(s)|;
      assert s[1..][k - 1..] == s[k..];
      assert s[..k] == [s[0]] + s[1..][..k - 1];
    } else {
      assert s[0..] == s;
    }
  }

  lemma {:induction false} TextLengthIs(s: string)
    ensures var n := TextLength(s); n <= |s| && IsText(s[..n]) && (n < |s| ==> Place(s[n]).None?)
  {
    if s != [] && Place(s[0]).Some? {
      TextLengthIs(s[1..]);
      var n := TextLength(s);
      assert s[..n] == [s[0]] + s[1..][..n - 1];
    }
  }

  lemma {:induction false} TextLengthSplit(body: string, post: string)
    requires IsText(body) && (post != [] ==> Place(post[0]).None?)
    ensures TextLength(body + post) == |body|
  {
    if body == [] {
      assert body + post == post;
    } else {
      TextLengthSplit(body[1..], post);
      assert (body + post)[1..] == body[1..] + post;
    }
  }

  /** Letters between optional white space; anything else is an error. */
  function Decode(s: string): Option<seq<byte>> {
    var t := SkipSpace(s);
    TextLengthIs(t);
    var n := TextLength(t);
    if AllSpace(t[n..]) then Some(Decoded(t[..n])) else None
  }

  ghost predicate Padded(s: string, pre: string, b: seq<byte>, post: string) {
    AllSpace(pre) && AllSpace(post) && s == pre + Encoded(b) + post
  }

  /** A string decodes to b exactly when it is the encoding of b with white space around it. */
  lemma DecodeExactly(s: string, b: seq<byte>)
    ensures Decode(s) == Some(b) <==> exists pre, post :: Padded(s, pre, b, post)
  {
    hide Decode, Padded;
    if Decode(s) == Some(b) {
      var pre, post := DecodesPadded(s, b);
    }
    if pre, post :| Padded(s, pre, b, post) {
      PaddedDecodes(s, pre, b, post);
    }
  }

  lemma DecodesPadded(s: string, b: seq<byte>) returns (pre: string, post: string)
    requires Decode(s) == Some(b)
    ensures Padded(s, pre, b, post)
  {
    hide Encoded, Decoded, Place, IsSpace;
    SkipSpaceIs(s);
    var t := SkipSpace(s);
    var k, n := |s| - |t|, TextLength(t);
    TextLengthIs(t);
    EncodedDecoded(t[..n]);
    pre, post := s[..k], t[n..];
    assert pre + t[..n] + post == s;
  }

  lemma PaddedDecodes(s: string, pre: string, b: seq<byte>, post: string)
    requires Padded(s, pre, b, post)
    ensures Decode(s) == Some(b)
  {
    DecodedEncoded(b);
    var body := Encoded(b);
    if body == [] {
      assert s == (pre + post) + [];
      SkipSpaceSplit(pre + post, []);
    } else {
      assert s == pre + (body + post);
      assert (body + post)[0] == body[0];
      SkipSpaceSplit(pre, body + post);
      TextLengthSplit(body, post);
      assert (body + post)[..|body|] == body && (body + post)[|body|..] == post;
    }
  }

  // ------------------------------------------------------------ the code

  lemma TextStep(x: nat, s: string)
    requires x > 0
    ensures Text(x) + Reversed(s) == Text(x / 58) + Reversed(s + [Letter(x % 58)])
  {
    ReversedSnoc(s, Letter(x % 58));
  }

  /** Divide by 58, collecting letters from the last, then the zero letters, then turn the string round. */
  method EncodeBase58(b: seq<byte>) returns (s: string)
    ensures s == Encoded(b)
  {
    hide Value, Letter, FromMpi;
    var bn := FromMpi([0] + b);
    ExtendedZero(b);
    s := [];
    while bn > 0
      invariant bn >= 0 && Text(bn) + Reversed(s) == Text(Value(b))
    {
      TextStep(bn, s);
      s := s + [Letter(bn % 58)];
      bn := bn / 58;
    }
    assert Text(0) + Reversed(s) == Reversed(s);
    s := AppendOnes(b, s);
    s := Reversed(s);
  }

  method AppendOnes(b: seq<byte>, s0: string) returns (s: string)
    ensures Reversed(s) == Repeat('1', Leading(0, b)) + Reversed(s0)
  {
    s := s0;
    var p := 0;
    assert b[0..] == b;
    while p < |b| && b[p] == 0
      invariant p <= |b| && p + Leading(0, b[p..]) == Leading(0, b)
      invariant Reversed(s) == Repeat('1', p) + Reversed(s0)
    {
      ReversedSnoc(s, '1');
      assert ['1'] + (Repeat('1', p) + Reversed(s0)) == Repeat('1', p + 1) + Reversed(s0);
      assert b[p..][1..] == b[p + 1..];
      s := s + ['1'];
      p := p + 1;
    }
  }

  /** The sign byte put in front of the bytes keeps them a non-negative number. */
  lemma ExtendedZero(b: seq<byte>)
    ensures FromMpi([0] + b) == Value(b)
  {
    hide Value, Pow256;
    var zero: seq<byte> := [0];
    ValueConcat(zero, b);
    ValueOne(0);
    MulLe(0, 0, Pow256(|b|));
    assert (zero + b)[0] == 0;
  }

  /** The signed format with its sign byte trimmed off is the bare digits. */
  lemma SignTrimmed(x: nat)
    ensures var v := ToMpi(x);
            Digits(x) == if |v| >= 2 && v[0] == 0 && v[1] >= 0x80 then v[1..] else v
  {
    DigitsValue(x);
  }

  method SkipBlanks(s: string) returns (psz: nat)
    ensures psz <= |s| && s[psz..] == SkipSpace(s)
  {
    psz := 0;
    assert s[0..] == s;
    while psz < |s| && IsSpace(s[psz])
      invariant psz <= |s| && SkipSpace(s[psz..]) == SkipSpace(s)
    {
      assert s[psz..][1..] == s[psz + 1..];
      psz := psz + 1;
    }
  }

  /** Multiply in the letters at the front. */
  method ReadNumber(t: string) returns (p: nat, bn: nat)
    ensures p == TextLength(t) <= |t| && IsText(t[..p]) && bn == Number(t[..p])
  {
    hide Place;
    p, bn := 0, 0;
    while p < |t| && Place(t[p]).Some?
      invariant p <= |t| && IsText(t[..p]) && bn == Number(t[..p])
    {
      assert t[..p + 1][..p] == t[..p];
      assert IsText(t[..p + 1]);
      bn := bn * 58 + Place(t[p]).value;
      p := p + 1;
    }
    assert t == t[..p] + t[p..];
    TextLengthSplit(t[..p], t[p..]);
  }

  method OnlyBlanks(s: string) returns (yes: bool)
    ensures yes <==> AllSpace(s)
  {
    var q := 0;
    while q < |s| && IsSpace(s[q])
      invariant q <= |s| && AllSpace(s[..q])
    {
      q := q + 1;
    }
    return q == |s|;
  }

  /** Skip white space, multiply letters in, allow white space to the end; then lay out the bytes. */
  lemma DecodeIs(s: string)
    ensures var t := SkipSpace(s); var n := TextLength(t);
            && n <= |t| && IsText(t[..n])
            && Decode(s) == if AllSpace(t[n..]) then Some(Repeat(0, Leading('1', t)) + Digits(Number(t[..n]))) else None
  {
    hide Place, IsSpace, Digits, Number, TextLength, Leading, SkipSpace, AllSpace;
    var t := SkipSpace(s);
    var n := TextLength(t);
    TextLengthIs(t);
    if AllSpace(t[n..]) {
      LeadingOfPrefix(t[..n], t[n..]);
      assert t == t[..n] + t[n..];
    }
  }

  method DecodeBase58(s: string) returns (ok: bool, b: seq<byte>)
    ensures ok <==> Decode(s).Some?
    ensures ok ==> Decode(s) == Some(b)
  {
    hide *;
    b := [];
    var psz := SkipBlanks(s);
    var n, bn := ReadNumber(s[psz..]);
    ok := OnlyBlanks(s[psz..][n..]);
    DecodeIs(s);
    if !ok { return; }
    b := LayOut(s[psz..], bn);
  }

  /** The bytes of the number without its sign byte, after a zero byte for every zero letter in front. */
  method LayOut(t: string, bn: nat) returns (b: seq<byte>)
    ensures b == Repeat(0, Leading('1', t)) + Digits(bn)
  {
    var tmp := ToMpi(bn);
    if |tmp| >= 2 && tmp[0] == 0 && tmp[1] >= 0x80 { tmp := tmp[1..]; }
    SignTrimmed(bn);
    var zeros := 0;
    assert t[0..] == t;
    while zeros < |t| && t[zeros] == '1'
      invariant zeros <= |t| && zeros + Leading('1', t[zeros..]) == Leading('1', t)
    {
      assert t[zeros..][1..] == t[zeros + 1..];
      zeros := zeros + 1;
    }
    return Repeat(0, zeros) + tmp;
  }

  /** The zero letters in front of a string are those in front of its text. */
  lemma {:induction false} LeadingOfPrefix(body: string, post: string)
    requires post != [] ==> Place(post[0]).None?
    ensures Leading('1', body + post) == Leading('1', body)
  {
    if body == [] {
      assert body + post == post;
    } else {
      LeadingOfPrefix(body[1..], post);
      assert (body + post)[1..] == body[1..] + post;
    }
  }
}

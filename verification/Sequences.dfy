/** Reversal, repetition and leading runs of sequences; the size of subsets. */
module Sequences {

  ghost predicate Distinct<T>(s: seq<T>) { forall i, j :: 0 <= i < j < |s| ==> s[i] != s[j] }

  function Reversed<T>(s: seq<T>): seq<T> { seq(|s|, i requires 0 <= i < |s| => s[|s| - 1 - i]) }

  lemma ReversedAt<T>(s: seq<T>, i: nat)
    requires i < |s|
    ensures |Reversed(s)| == |s| && Reversed(s)[i] == s[|s| - 1 - i]
  {
  }

  lemma ReversedTwice<T>(s: seq<T>)
    ensures Reversed(Reversed(s)) == s
  {
  }

  lemma ReversedSnoc<T>(s: seq<T>, x: T)
    ensures Reversed(s + [x]) == [x] + Reversed(s)
  {
  }

  lemma ReversedCons<T>(x: T, s: seq<T>)
    ensures Reversed([x] + s) == Reversed(s) + [x]
  {
  }

  function Repeat<T>(x: T, n: nat): seq<T> { seq(n, i => x) }

  /** How many times x stands at the front. */
  function Leading<T(==)>(x: T, s: seq<T>): nat { if s != [] && s[0] == x then 1 + Leading(x, s[1..]) else 0 }

  lemma {:induction false} LeadingSplit<T>(x: T, s: seq<T>)
    ensures var n := Leading(x, s); n <= |s| && s[..n] == Repeat(x, n) && (n < |s| ==> s[n] != x)
  {
    if s != [] && s[0] == x {
      LeadingSplit(x, s[1..]);
      var n := Leading(x, s);
      assert s[..n] == [s[0]] + s[1..][..n - 1];
    }
  }

  lemma {:induction false} LeadingRepeat<T>(x: T, n: nat, t: seq<T>)
    requires t != [] ==> t[0] != x
    ensures Leading(x, Repeat(x, n) + t) == n
  {
    if n == 0 {
      assert Repeat(x, n) + t == t;
    } else {
      LeadingRepeat(x, n - 1, t);
      assert (Repeat(x, n) + t)[1..] == Repeat(x, n - 1) + t;
    }
  }

  lemma {:induction false} SubsetSize<T>(a: set<T>, b: set<T>)
    requires a <= b
    ensures |a| <= |b|
  {
    if a != {} {
      var x :| x in a;
      SubsetSize(a - {x}, b - {x});
    }
  }
}

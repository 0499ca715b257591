/** Median time past: the middle of the sorted times of the last eleven blocks, and that it never decreases
    along a chain whose every block is later than the median of its predecessors. */
module MedianTime {
  import opened Sorting

  const MEDIAN_SPAN: nat := 11

  predicate NotLater(a: int, b: int) { a <= b }

  /** How many elements are less than m. */
  function Less(s: seq<int>, m: int): nat {
    if s == [] then 0 else Less(s[..|s| - 1], m) + if s[|s| - 1] < m then 1 else 0
  }

  lemma {:induction false} LessConcat(s: seq<int>, t: seq<int>, m: int)
    ensures Less(s + t, m) == Less(s, m) + Less(t, m)
  {
    if t == [] {
      assert s + t == s;
    } else {
      LessConcat(s, t[..|t| - 1], m);
      assert (s + t)[..|s + t| - 1] == s + t[..|t| - 1];
    }
  }

  /** Reordering does not change how many elements are less than m. */
  lemma {:induction false} LessPermuted(s: seq<int>, t: seq<int>, m: int)
    requires multiset(s) == multiset(t)
    ensures Less(s, m) == Less(t, m)
  {
    hide Less;
    if s == [] {
      assert |multiset(t)| == 0;
    } else {
      var i := SameRest(s, t);
      RemovedLess(t, i, m);
      RemovedLess(s, |s| - 1, m);
      LessPermuted(Omit(s, |s| - 1), Omit(t, i), m);
    }
  }

  /** A sequence without the element at i. */
  function Omit(t: seq<int>, i: nat): seq<int>
    requires i < |t|
  {
    t[..i] + t[i + 1..]
  }

  lemma RemovedLess(t: seq<int>, i: nat, m: int)
    requires i < |t|
    ensures Less(t, m) == Less(Omit(t, i), m) + if t[i] < m then 1 else 0
  {
    var x := t[i];
    assert t == t[..i] + ([x] + t[i + 1..]);
    LessConcat(t[..i], t[i + 1..], m);
    LessConcat(t[..i], [x] + t[i + 1..], m);
    LessConcat([x], t[i + 1..], m);
    assert [x][..0] == [];
  }

  lemma RemovedMultiset(t: seq<int>, i: nat)
    requires i < |t|
    ensures multiset(Omit(t, i)) == multiset(t) - multiset{t[i]}
  {
    assert t == t[..i] + ([t[i]] + t[i + 1..]);
  }

  /** Two permutations of each other, without the last element of the first. */
  lemma SameRest(s: seq<int>, t: seq<int>) returns (i: nat)
    requires s != [] && multiset(s) == multiset(t)
    ensures i < |t| && t[i] == s[|s| - 1] && multiset(Omit(s, |s| - 1)) == multiset(Omit(t, i))
  {
    assert s[|s| - 1] in multiset(t);
    i :| 0 <= i < |t| && t[i] == s[|s| - 1];
    RemovedMultiset(s, |s| - 1);
    RemovedMultiset(t, i);
  }

  /** In a sorted sequence, place k holds at least m exactly when at most k elements are less than m. */
  lemma {:induction false} SortedRank(s: seq<int>, m: int, k: nat)
    requires Sorted(NotLater, s) && k < |s|
    ensures s[k] >= m <==> Less(s, m) <= k
  {
    if |s| > 0 {
      var init := s[..|s| - 1];
      if k < |init| {
        SortedRank(init, m, k);
        if s[|s| - 1] < m { assert s[k] < m; }
      } else {
        LessBound(init, m);
        if s[k] < m { AllLess(s, m); }
      }
    }
  }

  lemma {:induction false} LessBound(s: seq<int>, m: int)
    ensures Less(s, m) <= |s|
  {
    if s != [] { LessBound(s[..|s| - 1], m); }
  }

  lemma {:induction false} AllLess(s: seq<int>, m: int)
    requires forall i :: 0 <= i < |s| ==> s[i] < m
    ensures Less(s, m) == |s|
  {
    if s != [] { AllLess(s[..|s| - 1], m); }
  }

  // ------------------------------------------------------------ the median

  /** The times of the last eleven blocks, fewer near the genesis block; times[0] is the genesis. */
  function Window(times: seq<int>): seq<int> { if |times| <= MEDIAN_SPAN then times else times[|times| - MEDIAN_SPAN..] }

  function Median(s: seq<int>): int
    requires s != []
  {
    SortSorts(NotLater, s);
    Sort(NotLater, s)[|s| / 2]
  }

  function MedianTimePast(times: seq<int>): int
    requires times != []
  {
    Median(Window(times))
  }

  /** The median is at least m exactly when at most half of the elements are less than m. */
  lemma MedianRank(s: seq<int>, m: int)
    requires s != []
    ensures Median(s) >= m <==> Less(s, m) <= |s| / 2
  {
    SortSorts(NotLater, s);
    SortedRank(Sort(NotLater, s), m, |s| / 2);
    LessPermuted(Sort(NotLater, s), s, m);
  }

  /** The median time past is at least m exactly when, of the last eleven blocks or of all of them if they are fewer, at
      most half are before m. */
  lemma PastRank(times: seq<int>, m: int)
    requires times != []
    ensures var last := times[if |times| > 11 then |times| - 11 else 0..];
            MedianTimePast(times) >= m <==> Less(last, m) <= |last| / 2
  {
    MedianRank(Window(times), m);
    assert times[0..] == times;
  }

  /** One more block, later than the median before it. */
  lemma MedianStep(times: seq<int>, t: int)
    requires times != [] && t > MedianTimePast(times)
    ensures MedianTimePast(times + [t]) >= MedianTimePast(times)
  {
    var m, w, w' := MedianTimePast(times), Window(times), Window(times + [t]);
    MedianRank(w, m);
    if |times| < MEDIAN_SPAN {
      assert w' == w + [t];
      LessConcat(w, [t], m);
    } else {
      assert w == [w[0]] + w[1..];
      assert w' == w[1..] + [t];
      LessConcat([w[0]], w[1..], m);
      LessConcat(w[1..], [t], m);
    }
    assert [t][..0] == [];
    MedianRank(w', m);
  }

  /** The times of a chain of accepted blocks. */
  ghost predicate Accepted(times: seq<int>) {
    times != [] && forall n :: 1 <= n < |times| ==> times[n] > MedianTimePast(times[..n])
  }

  /** Along every chain of accepted blocks the median time past never decreases. */
  lemma {:induction false} MedianNeverDecreases(times: seq<int>, i: nat, j: nat)
    requires Accepted(times) && 1 <= i <= j <= |times|
    ensures MedianTimePast(times[..i]) <= MedianTimePast(times[..j])
    decreases j
  {
    hide MedianTimePast;
    if i < j {
      MedianNeverDecreases(times, i, j - 1);
      MedianStep(times[..j - 1], times[j - 1]);
      assert times[..j - 1] + [times[j - 1]] == times[..j];
    }
  }

  // ------------------------------------------------------------ the code

  /** Walk back over at most eleven blocks, filling the buffer from its end, and take the middle after
      sorting. times lists the block's chain from genesis to the block itself. */
  method GetMedianTimePast(times: seq<int>) returns (median: int)
    requires times != []
    ensures median == MedianTimePast(times)
  {
    var pmedian := new int[MEDIAN_SPAN];
    var begin := MEDIAN_SPAN;
    var cursor := |times|;
    while MEDIAN_SPAN - begin < MEDIAN_SPAN && cursor > 0
      invariant 0 <= begin <= MEDIAN_SPAN && 0 <= cursor <= |times|
      invariant MEDIAN_SPAN - begin == |times| - cursor && pmedian[begin..] == times[cursor..]
    {
      begin, cursor := begin - 1, cursor - 1;
      pmedian[begin] := times[cursor];
    }
    assert pmedian[begin..] == Window(times);
    var sorted := Sort(NotLater, pmedian[begin..]);
    SortSorts(NotLater, pmedian[begin..]);
    median := sorted[(MEDIAN_SPAN - begin) / 2];
  }
}

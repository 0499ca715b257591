/** The stake modifier: which blocks of the recent past contribute their entropy bits to the modifier of the
    next interval. */
module StakeModifier {
  import opened Basics
  import opened Arithmetic
  import opened Ledger
  import opened BlockTree
  import opened Sequences
  import opened Sorting

  /** What the stake modifier reads of a block index entry. */
  datatype Entry = Entry(hash: Hash, time: nat, proofOfStake: bool, proof: Hash, entropy: bool,
                         modifier: nat, generated: bool)

  type Entries = map<Hash, Entry>

  const ROUNDS: nat := 64
  const INTERVAL_RATIO: nat := 3

  /** Every indexed block has an entry under its own hash. */
  ghost predicate EntriesOk(index: Index, entries: Entries) {
    forall h :: h in index ==> h in entries && entries[h].hash == h
  }

  /** The entries of the ancestors of h, genesis first. */
  ghost function ChainOf(index: Index, genesis: Hash, entries: Entries, h: Hash): seq<Entry>
    requires TreeOk(index, genesis) && EntriesOk(index, entries) && h in index
  {
    PathShape(index, genesis, h);
    var path := Path(index, genesis, h);
    seq(|path|, i requires 0 <= i < |path| => entries[path[i]])
  }

  // ------------------------------------------------------------ what is to be computed

  /** The length of selection section n. */
  function Section(interval: nat, n: nat): int
    requires n < ROUNDS
  {
    interval * 63 / (63 + (63 - n) * (INTERVAL_RATIO - 1))
  }

  /** The sections before n together. */
  function Sections(interval: nat, n: nat): int
    requires n <= ROUNDS
  {
    if n == 0 then 0 else Sections(interval, n - 1) + Section(interval, n - 1)
  }

  function Start(interval: nat, time: nat): int
    requires interval > 0
  {
    time / interval * interval - Sections(interval, ROUNDS)
  }

  /** Order of the (time, hash) pairs. */
  predicate Earlier(a: Entry, b: Entry) { a.time < b.time || (a.time == b.time && a.hash <= b.hash) }

  /** The selection hash: a proof-of-stake block's is divided by 2^32. */
  function Key(H: (Hash, nat) -> Hash, modifier: nat, e: Entry): nat {
    if e.proofOfStake then H(e.proof, modifier) / TWO_32 else H(e.hash, modifier)
  }

  /** Candidate j may be picked: not picked yet, and either no later than stop or the first one left. */
  ghost predicate Eligible(sorted: seq<Entry>, selected: set<Hash>, stop: int, j: nat) {
    && j < |sorted| && sorted[j].hash !in selected
    && (sorted[j].time <= stop || forall i :: 0 <= i < j ==> sorted[i].hash in selected)
  }

  /** p has the least selection hash of the candidates that may be picked, the earliest one on a tie. */
  ghost predicate IsPick(H: (Hash, nat) -> Hash, modifier: nat, sorted: seq<Entry>, selected: set<Hash>, stop: int, p: nat) {
    && Eligible(sorted, selected, stop, p)
    && forall j: nat :: Eligible(sorted, selected, stop, j) ==>
         Key(H, modifier, sorted[p]) < Key(H, modifier, sorted[j]) ||
         (Key(H, modifier, sorted[p]) == Key(H, modifier, sorted[j]) && p <= j)
  }

  /** Which of two candidates is picked, at places p and j, in terms of the hashes of their proofs or of themselves. */
  ghost predicate Preferred(H: (Hash, nat) -> Hash, modifier: nat, a: Entry, p: nat, b: Entry, j: nat) {
    && (a.proofOfStake && b.proofOfStake ==>
          var x, y := H(a.proof, modifier), H(b.proof, modifier); x / TWO_32 < y / TWO_32 || (x / TWO_32 == y / TWO_32 && p <= j))
    && (!a.proofOfStake && !b.proofOfStake ==>
          var x, y := H(a.hash, modifier), H(b.hash, modifier); x < y || (x == y && p <= j))
    && (a.proofOfStake && !b.proofOfStake ==>
          var x, y := H(a.proof, modifier), H(b.hash, modifier); x < TWO_32 * y || (x < TWO_32 * (y + 1) && p <= j))
    && (!a.proofOfStake && b.proofOfStake ==>
          var x, y := H(a.hash, modifier), H(b.proof, modifier); TWO_32 * (x + 1) <= y || (TWO_32 * x <= y && p <= j))
  }

  /** The pick is preferred to every other candidate that may be picked, and that determines it. */
  lemma PickIsPreferred(H: (Hash, nat) -> Hash, modifier: nat, sorted: seq<Entry>, selected: set<Hash>, stop: int, p: nat)
    ensures IsPick(H, modifier, sorted, selected, stop, p) <==>
              && Eligible(sorted, selected, stop, p)
              && forall j: nat :: Eligible(sorted, selected, stop, j) ==> Preferred(H, modifier, sorted[p], p, sorted[j], j)
  {
    hide Key, Preferred;
    if Eligible(sorted, selected, stop, p) {
      forall j: nat | Eligible(sorted, selected, stop, j)
        ensures Preferred(H, modifier, sorted[p], p, sorted[j], j) <==>
                Key(H, modifier, sorted[p]) < Key(H, modifier, sorted[j]) || (Key(H, modifier, sorted[p]) == Key(H, modifier, sorted[j]) && p <= j)
      {
        KeyOrder(H, modifier, sorted[p], p, sorted[j], j);
      }
    }
  }

  /** The candidates that may be picked are the unpicked ones up to the stop time, and the first unpicked one. */
  lemma EligibleIs(sorted: seq<Entry>, selected: set<Hash>, stop: int, j: nat)
    requires j < |sorted|
    ensures sorted[j].hash in selected ==> !Eligible(sorted, selected, stop, j)
    ensures sorted[j].hash !in selected && sorted[j].time <= stop ==> Eligible(sorted, selected, stop, j)
    ensures sorted[j].hash !in selected && sorted[j].time > stop ==>
              (Eligible(sorted, selected, stop, j) <==> forall e :: e in sorted[..j] ==> e.hash in selected)
  {
  }

  lemma KeyOrder(H: (Hash, nat) -> Hash, modifier: nat, a: Entry, p: nat, b: Entry, j: nat)
    ensures Preferred(H, modifier, a, p, b, j) <==>
            Key(H, modifier, a) < Key(H, modifier, b) || (Key(H, modifier, a) == Key(H, modifier, b) && p <= j)
  {
  }

  const TWO_224: nat := 0x1_00000000_00000000_00000000_00000000_00000000_00000000_00000000

  /** While some proof-of-stake block may be picked, no proof-of-work block is unless its hash is below 2^224. */
  lemma StakePreferred(H: (Hash, nat) -> Hash, modifier: nat, sorted: seq<Entry>, selected: set<Hash>, stop: int, p: nat, j: nat)
    requires IsPick(H, modifier, sorted, selected, stop, p) && Eligible(sorted, selected, stop, j)
    requires sorted[j].proofOfStake && H(sorted[j].proof, modifier) < TWO_224 * TWO_32
    ensures sorted[p].proofOfStake || H(sorted[p].hash, modifier) < TWO_224
  {
    PickIsPreferred(H, modifier, sorted, selected, stop, p);
    hide IsPick;
    assert Preferred(H, modifier, sorted[p], p, sorted[j], j);
  }

  /** Section n of 64 is the fraction 63 / (189 - 2n) of the interval: from a third of it up to all of it. */
  lemma SectionIs(interval: nat, n: nat)
    requires n < ROUNDS
    ensures Section(interval, n) * (189 - 2 * n) <= 63 * interval < (Section(interval, n) + 1) * (189 - 2 * n)
  {
    var d := 189 - 2 * n;
    assert 63 + (63 - n) * (INTERVAL_RATIO - 1) == d;
    assert interval * 63 == interval * 63 / d * d + interval * 63 % d;
  }

  /** The candidates are taken by time, those of one time by hash. */
  lemma SortedByTime(cands: seq<Entry>, i: nat, j: nat)
    requires i < j < |Sort(Earlier, cands)|
    ensures var a, b := Sort(Earlier, cands)[i], Sort(Earlier, cands)[j]; a.time < b.time || (a.time == b.time && a.hash <= b.hash)
    ensures multiset(Sort(Earlier, cands)) == multiset(cands)
  {
    EarlierIsTotal();
    SortSorts(Earlier, cands);
  }

  /** The selection ends at the start of the interval that the time is in. */
  lemma StartIs(interval: nat, time: nat)
    requires interval > 0
    ensures var end := Start(interval, time) + Sections(interval, ROUNDS);
            end <= time < end + interval && end % interval == 0
  {
    hide Sections;
    assert time == time / interval * interval + time % interval;
    MultipleOf(time / interval, interval);
  }

  lemma MultipleOf(q: nat, d: nat)
    requires d > 0
    ensures q * d % d == 0
  {
    DivUnique(q * d, d, q, 0);
  }

  ghost predicate PicksIn(sorted: seq<Entry>, picks: seq<nat>) { forall k :: 0 <= k < |picks| ==> picks[k] < |sorted| }

  ghost function Hashes(sorted: seq<Entry>, picks: seq<nat>): set<Hash>
    requires PicksIn(sorted, picks)
  {
    set k | 0 <= k < |picks| :: sorted[picks[k]].hash
  }

  /** One pick a round, each from what the earlier rounds left, up to that round's stop time. */
  ghost predicate Selection(H: (Hash, nat) -> Hash, modifier: nat, interval: nat, start: int, sorted: seq<Entry>, picks: seq<nat>) {
    && |picks| <= ROUNDS && PicksIn(sorted, picks)
    && forall k :: 0 <= k < |picks| ==>
         IsPick(H, modifier, sorted, Hashes(sorted, picks[..k]), start + Sections(interval, k + 1), picks[k])
  }

  /** Bit k of the number is the entropy bit of the k-th pick, and there are no other bits. */
  ghost predicate IsBits(sorted: seq<Entry>, picks: seq<nat>, modifier: nat)
    requires PicksIn(sorted, picks)
  {
    && modifier < Pow2(|picks|)
    && forall k :: 0 <= k < |picks| ==> BitAt(modifier, k) == sorted[picks[k]].entropy
  }

  predicate BitAt(m: nat, k: nat) { m / Pow2(k) % 2 == 1 }

  /** The last block of the chain that generated a modifier, -1 when there is none. */
  function LastGenerated(chain: seq<Entry>): int {
    if chain == [] then -1
    else if chain[|chain| - 1].generated then |chain| - 1
    else LastGenerated(chain[..|chain| - 1])
  }

  lemma {:induction false} LastGeneratedIsLast(chain: seq<Entry>)
    ensures var i := LastGenerated(chain);
            && -1 <= i < |chain| && (i >= 0 ==> chain[i].generated)
            && forall j :: i < j < |chain| ==> !chain[j].generated
  {
    if chain != [] && !chain[|chain| - 1].generated { LastGeneratedIsLast(chain[..|chain| - 1]); }
  }

  /** The candidates are the unbroken run of blocks, ending at the tip, that are not older than start. */
  ghost predicate IsFirst(chain: seq<Entry>, start: int, first: nat) {
    && first <= |chain| && (forall j :: first <= j < |chain| ==> chain[j].time >= start)
    && (first > 0 ==> chain[first - 1].time < start)
  }

  ghost predicate Regenerated(H: (Hash, nat) -> Hash, interval: nat, chain: seq<Entry>, prevModifier: nat, first: nat, picks: seq<nat>, modifier: nat)
    requires interval > 0 && chain != []
  {
    var start := Start(interval, chain[|chain| - 1].time);
    IsFirst(chain, start, first) &&
    var sorted := Sort(Earlier, chain[first..]);
    && |picks| == Min(ROUNDS, |chain| - first)
    && Selection(H, prevModifier, interval, start, sorted, picks) && IsBits(sorted, picks, modifier)
  }

  /** The modifier that follows a chain: the old one while its interval lasts, else one made of picked bits. */
  ghost predicate IsNext(H: (Hash, nat) -> Hash, interval: nat, chain: seq<Entry>, modifier: nat, generated: bool)
    requires interval > 0 && chain != []
  {
    var i := LastGenerated(chain);
    && 0 <= i < |chain|
    && (generated <==> chain[i].time / interval < chain[|chain| - 1].time / interval)
    && (if !generated then modifier == chain[i].modifier
        else exists first, picks :: Regenerated(H, interval, chain, chain[i].modifier, first, picks, modifier))
  }

  /** Within the interval of the last modifier it is kept, and in a later one a new one is made. */
  lemma NextKept(H: (Hash, nat) -> Hash, interval: nat, chain: seq<Entry>, i: nat, modifier: nat, generated: bool)
    requires interval > 0 && i < |chain| && chain[i].generated && forall j :: i < j < |chain| ==> !chain[j].generated
    requires IsNext(H, interval, chain, modifier, generated)
    ensures generated <==> chain[i].time / interval < chain[|chain| - 1].time / interval
    ensures !generated ==> modifier == chain[i].modifier
    ensures generated ==> modifier < Pow2(Min(64, |chain|))
  {
    LastGeneratedIsLast(chain);
    hide Selection, LastGenerated, Pow2;
    if generated {
      var first, picks :| Regenerated(H, interval, chain, chain[i].modifier, first, picks, modifier);
      Pow2Monotone(|picks|, Min(64, |chain|));
    }
  }

  lemma {:induction false} Pow2Monotone(m: nat, n: nat)
    requires m <= n
    ensures Pow2(m) <= Pow2(n)
  {
    if m < n { Pow2Monotone(m, n - 1); }
  }

  // ------------------------------------------------------------ it is unique

  lemma EarlierIsTotal()
    ensures TotalOrder(Earlier)
  {
  }

  lemma PickUnique(H: (Hash, nat) -> Hash, modifier: nat, sorted: seq<Entry>, selected: set<Hash>, stop: int, p: nat, q: nat)
    requires IsPick(H, modifier, sorted, selected, stop, p) && IsPick(H, modifier, sorted, selected, stop, q)
    ensures p == q
  {
  }

  lemma {:induction false} SelectionUnique(H: (Hash, nat) -> Hash, modifier: nat, interval: nat, start: int, sorted: seq<Entry>,
                                           p: seq<nat>, q: seq<nat>)
    requires Selection(H, modifier, interval, start, sorted, p) && Selection(H, modifier, interval, start, sorted, q)
    requires |p| == |q|
    ensures p == q
  {
    hide IsPick, Sections, Selection, Hashes, PicksIn;
    if p != [] {
      var n := |p| - 1;
      SelectionCut(H, modifier, interval, start, sorted, p);
      SelectionCut(H, modifier, interval, start, sorted, q);
      SelectionUnique(H, modifier, interval, start, sorted, p[..n], q[..n]);
      PickUnique(H, modifier, sorted, Hashes(sorted, p[..n]), start + Sections(interval, n + 1), p[n], q[n]);
      assert p == p[..n] + [p[n]] && q == q[..n] + [q[n]];
    }
  }

  /** The picked blocks are pairwise distinct. */
  lemma PicksDistinct(H: (Hash, nat) -> Hash, modifier: nat, interval: nat, start: int, sorted: seq<Entry>, p: seq<nat>, i: nat, j: nat)
    requires Selection(H, modifier, interval, start, sorted, p) && i < j < |p|
    ensures sorted[p[i]].hash != sorted[p[j]].hash
  {
    var earlier := p[..j];
    assert earlier[i] == p[i];
    assert sorted[earlier[i]].hash in Hashes(sorted, earlier);
  }

  lemma SelectionCut(H: (Hash, nat) -> Hash, modifier: nat, interval: nat, start: int, sorted: seq<Entry>, p: seq<nat>)
    requires Selection(H, modifier, interval, start, sorted, p) && p != []
    ensures Selection(H, modifier, interval, start, sorted, p[..|p| - 1])
    ensures |p| <= ROUNDS && PicksIn(sorted, p[..|p| - 1])
    ensures IsPick(H, modifier, sorted, Hashes(sorted, p[..|p| - 1]), start + Sections(interval, |p|), p[|p| - 1])
  {
    var q := p[..|p| - 1];
    forall k | 0 <= k < |q|
      ensures IsPick(H, modifier, sorted, Hashes(sorted, q[..k]), start + Sections(interval, k + 1), q[k])
    {
      assert q[..k] == p[..k];
    }
  }

  /** A higher bit does not change bit k. */
  lemma {:induction false} BitAbove(m: nat, k: nat, n: nat, p: nat)
    requires k < n && (p == 0 || p == Pow2(n))
    ensures BitAt(m + p, k) == BitAt(m, k)
    decreases k
  {
    var x := if p == 0 then 0 else Pow2(n - 1);
    assert p == 2 * x;
    hide Pow2, BitAt;
    Halves(m, x);
    if k == 0 {
      BitZero(m);
      BitZero(m + p);
    } else {
      BitDrop(m, k);
      BitDrop(m + p, k);
      BitAbove(m / 2, k - 1, n - 1, x);
    }
  }

  lemma Halves(m: nat, x: nat)
    ensures (m + 2 * x) / 2 == m / 2 + x && (m + 2 * x) % 2 == m % 2
  {
  }

  lemma BitZero(m: nat)
    ensures BitAt(m, 0) == (m % 2 == 1)
  {
  }

  /** Bit k of a number is bit k - 1 of its half. */
  lemma BitDrop(m: nat, k: nat)
    requires k > 0
    ensures BitAt(m, k) == BitAt(m / 2, k - 1)
  {
    DivDiv(m, Pow2(k - 1));
  }

  lemma DivDiv(m: nat, p: nat)
    requires p > 0
    ensures m / (2 * p) == m / 2 / p
  {
    var q := m / 2 / p;
    assert m / 2 == q * p + m / 2 % p;
    assert m == 2 * (m / 2) + m % 2;
    assert m == q * (2 * p) + (2 * (m / 2 % p) + m % 2);
    DivUnique(m, 2 * p, q, 2 * (m / 2 % p) + m % 2);
  }

  /** Adding a power of two above the number sets that bit. */
  lemma BitTop(m: nat, n: nat, b: nat)
    requires m < Pow2(n) && b <= 1
    ensures BitAt(m + b * Pow2(n), n) == (b == 1)
  {
    DivUnique(m + b * Pow2(n), Pow2(n), b, m);
  }

  /** A number is determined by its bits. */
  lemma {:induction false} BitsUnique(m: nat, m': nat, n: nat)
    requires m < Pow2(n) && m' < Pow2(n)
    requires forall k: nat :: k < n ==> BitAt(m, k) == BitAt(m', k)
    ensures m == m'
  {
    if n > 0 {
      forall k: nat | k < n - 1 ensures BitAt(m / 2, k) == BitAt(m' / 2, k) {
        BitDrop(m, k + 1);
        BitDrop(m', k + 1);
      }
      BitsUnique(m / 2, m' / 2, n - 1);
      assert BitAt(m, 0) == BitAt(m', 0);
    }
  }

  lemma FirstUnique(chain: seq<Entry>, start: int, a: nat, b: nat)
    requires IsFirst(chain, start, a) && IsFirst(chain, start, b)
    ensures a == b
  {
  }

  /** Two nodes that have the same ancestors of a block have the same chain for it. */
  lemma SameChain(index: Index, index': Index, genesis: Hash, entries: Entries, entries': Entries, h: Hash)
    requires TreeOk(index, genesis) && TreeOk(index', genesis) && h in index && h in index'
    requires EntriesOk(index, entries) && EntriesOk(index', entries')
    requires Path(index, genesis, h) == Path(index', genesis, h)
    requires forall a :: a in Path(index, genesis, h) && a in entries && a in entries' ==> entries[a] == entries'[a]
    ensures ChainOf(index, genesis, entries, h) == ChainOf(index', genesis, entries', h) != []
  {
    PathShape(index, genesis, h);
    PathShape(index', genesis, h);
    var path := Path(index, genesis, h);
    var chain, chain' := ChainOf(index, genesis, entries, h), ChainOf(index', genesis, entries', h);
    forall i | 0 <= i < |path| ensures chain[i] == chain'[i] { assert path[i] in path; }
  }

  /** A chain has one next modifier. */
  lemma NextUnique(H: (Hash, nat) -> Hash, interval: nat, chain: seq<Entry>, m: nat, m': nat, g: bool, g': bool)
    requires interval > 0 && chain != []
    ensures IsNext(H, interval, chain, m, g) && IsNext(H, interval, chain, m', g') ==> m == m' && g == g'
  {
    if IsNext(H, interval, chain, m, g) && IsNext(H, interval, chain, m', g') && g {
      var prev := chain[LastGenerated(chain)].modifier;
      var first, picks :| Regenerated(H, interval, chain, prev, first, picks, m);
      var first', picks' :| Regenerated(H, interval, chain, prev, first', picks', m');
      RegeneratedUnique(H, interval, chain, prev, first, picks, m, first', picks', m');
    }
  }

  /** Whatever else two nodes have indexed, from the same ancestors they get the same modifier. */
  lemma DependsOnlyOnAncestors(H: (Hash, nat) -> Hash, interval: nat, index: Index, index': Index, genesis: Hash,
                               entries: Entries, entries': Entries, h: Hash, m: nat, m': nat, g: bool, g': bool)
    requires interval > 0 && TreeOk(index, genesis) && TreeOk(index', genesis) && h in index && h in index'
    requires EntriesOk(index, entries) && EntriesOk(index', entries')
    requires Path(index, genesis, h) == Path(index', genesis, h)
    requires forall a :: a in Path(index, genesis, h) && a in entries && a in entries' ==> entries[a] == entries'[a]
    ensures var chain, chain' := ChainOf(index, genesis, entries, h), ChainOf(index', genesis, entries', h);
            && chain != [] && chain' != []
            && (IsNext(H, interval, chain, m, g) && IsNext(H, interval, chain', m', g') ==> m == m' && g == g')
  {
    SameChain(index, index', genesis, entries, entries', h);
    NextUnique(H, interval, ChainOf(index, genesis, entries, h), m, m', g, g');
  }

  lemma RegeneratedUnique(H: (Hash, nat) -> Hash, interval: nat, chain: seq<Entry>, prev: nat,
                          first: nat, picks: seq<nat>, m: nat, first': nat, picks': seq<nat>, m': nat)
    requires interval > 0 && chain != []
    requires Regenerated(H, interval, chain, prev, first, picks, m) && Regenerated(H, interval, chain, prev, first', picks', m')
    ensures m == m' && picks == picks'
  {
    var start := Start(interval, chain[|chain| - 1].time);
    FirstUnique(chain, start, first, first');
    var sorted := Sort(Earlier, chain[first..]);
    SelectionUnique(H, prev, interval, start, sorted, picks, picks');
    BitsUnique(m, m', |picks|);
  }

  // ------------------------------------------------------------ the code

  lemma LastGeneratedCut(chain: seq<Entry>, k: nat)
    requires k < |chain|
    ensures LastGenerated(chain[..k + 1]) == if chain[k].generated then k else LastGenerated(chain[..k])
    ensures LastGenerated(chain[..0]) == -1
  {
    assert chain[..k + 1][..k] == chain[..k];
  }

  /** Go back to the last block that generated a modifier. */
  method GetLastStakeModifier(index: Index, genesis: Hash, entries: Entries, h: Hash) returns (ok: bool, modifier: nat, time: nat)
    requires TreeOk(index, genesis) && EntriesOk(index, entries) && h in index
    ensures var chain := ChainOf(index, genesis, entries, h);
            var i := LastGenerated(chain);
            && -1 <= i < |chain| && (ok <==> i >= 0)
            && (ok ==> modifier == chain[i].modifier && time == chain[i].time)
  {
    ghost var chain := ChainOf(index, genesis, entries, h);
    LastGeneratedIsLast(chain);
    AtTip(index, genesis, entries, h);
    hide LastGenerated, Path, ChainOf, TreeOk, EntriesOk, Reached;
    assert chain[..|chain|] == chain;
    var cursor := h;
    StepBack(index, genesis, entries, h, cursor);
    while cursor != genesis && !entries[cursor].generated
      invariant Reached(index, genesis, entries, h, cursor) && cursor in index && cursor in entries
      invariant LastGenerated(chain) == LastGenerated(chain[..index[cursor].height + 1])
      decreases index[cursor].height
    {
      StepBack(index, genesis, entries, h, cursor);
      LastGeneratedCut(chain, index[cursor].height);
      cursor := index[cursor].prev.value;
      StepBack(index, genesis, entries, h, cursor);
    }
    StepBack(index, genesis, entries, h, cursor);
    LastGeneratedCut(chain, index[cursor].height);
    if entries[cursor].generated {
      return true, entries[cursor].modifier, entries[cursor].time;
    }
    return false, 0, 0;
  }

  /** a is the block at its height on the path to h. */
  ghost predicate Reached(index: Index, genesis: Hash, entries: Entries, h: Hash, a: Hash)
    requires TreeOk(index, genesis) && EntriesOk(index, entries) && h in index
  {
    a in index && index[a].height < |Path(index, genesis, h)| && Path(index, genesis, h)[index[a].height] == a
  }

  lemma AtTip(index: Index, genesis: Hash, entries: Entries, h: Hash)
    requires TreeOk(index, genesis) && EntriesOk(index, entries) && h in index
    ensures Reached(index, genesis, entries, h, h) && |ChainOf(index, genesis, entries, h)| == index[h].height + 1
  {
    PathShape(index, genesis, h);
  }

  /** The entry of a block on the path, and the block before it. */
  lemma StepBack(index: Index, genesis: Hash, entries: Entries, h: Hash, a: Hash)
    requires TreeOk(index, genesis) && EntriesOk(index, entries) && h in index && Reached(index, genesis, entries, h, a)
    ensures var chain := ChainOf(index, genesis, entries, h);
            a in index && a in entries && index[a].height < |chain| && chain[index[a].height] == entries[a]
    ensures a == genesis ==> index[a].height == 0 && index[a].prev.None?
    ensures a != genesis ==>
              && index[a].height > 0 && index[a].prev.Some? && index[a].prev.value in index
              && Reached(index, genesis, entries, h, index[a].prev.value)
              && index[index[a].prev.value].height == index[a].height - 1
  {
    PathShape(index, genesis, h);
    if a != genesis { PathParent(index, genesis, h, index[a].height); }
  }

  /** Scan the candidates in order, stopping at the first one past the stop time once one has been found. */
  method SelectBlockFromCandidates(H: (Hash, nat) -> Hash, sorted: seq<Entry>, selected: set<Hash>, stop: int, modifier: nat)
    returns (found: bool, p: nat)
    requires Sorted(Earlier, sorted)
    ensures found <==> exists j :: 0 <= j < |sorted| && sorted[j].hash !in selected
    ensures found ==> p < |sorted| && IsPick(H, modifier, sorted, selected, stop, p)
    ensures found ==>
              && sorted[p].hash !in selected && (sorted[p].time <= stop || forall i :: 0 <= i < p ==> sorted[i].hash in selected)
              && forall j: nat :: Eligible(sorted, selected, stop, j) ==> Preferred(H, modifier, sorted[p], p, sorted[j], j)
  {
    found, p := false, 0;
    var best := 0;
    var i := 0;
    while i < |sorted|
      invariant i <= |sorted|
      invariant !found ==> forall j :: 0 <= j < i ==> sorted[j].hash in selected
      invariant found ==> p < i && Eligible(sorted, selected, stop, p) && best == Key(H, modifier, sorted[p])
      invariant found ==> forall j: nat :: j < i && Eligible(sorted, selected, stop, j) ==>
                  best < Key(H, modifier, sorted[j]) || (best == Key(H, modifier, sorted[j]) && p <= j)
    {
      var e := sorted[i];
      if found && e.time > stop { break; }
      if e.hash !in selected {
        var key := Key(H, modifier, e);
        if found && key < best {
          best, p := key, i;
        } else if !found {
          found, best, p := true, key, i;
        }
      }
      i := i + 1;
    }
    if found {
      forall j: nat | Eligible(sorted, selected, stop, j)
        ensures best < Key(H, modifier, sorted[j]) || (best == Key(H, modifier, sorted[j]) && p <= j)
      {
        assert j > i ==> Earlier(sorted[i], sorted[j]);
      }
    }
  }

  /** Blocks named by fewer picks than there are candidates leave one unpicked. */
  lemma SomeUnpicked(cands: seq<Entry>, sorted: seq<Entry>, picks: seq<nat>)
    requires multiset(sorted) == multiset(cands) && DistinctHashes(cands)
    requires PicksIn(sorted, picks) && |picks| < |cands|
    ensures exists j :: 0 <= j < |sorted| && sorted[j].hash !in Hashes(sorted, picks)
  {
    var all := HashSet(cands);
    HashCount(cands);
    PickCount(sorted, picks);
    if all <= Hashes(sorted, picks) { SubsetSize(all, Hashes(sorted, picks)); }
    var x :| x in all && x !in Hashes(sorted, picks);
    var i := HashSetAt(cands, x);
    assert cands[i] in multiset(sorted);
  }

  ghost function HashSet(s: seq<Entry>): set<Hash> {
    if s == [] then {} else HashSet(s[..|s| - 1]) + {s[|s| - 1].hash}
  }

  lemma {:induction false} HashSetAt(s: seq<Entry>, x: Hash) returns (i: nat)
    requires x in HashSet(s)
    ensures i < |s| && s[i].hash == x
  {
    if s[|s| - 1].hash == x { i := |s| - 1; } else { i := HashSetAt(s[..|s| - 1], x); }
  }

  ghost predicate DistinctHashes(s: seq<Entry>) { forall i, j :: 0 <= i < j < |s| ==> s[i].hash != s[j].hash }

  lemma {:induction false} HashCount(s: seq<Entry>)
    requires DistinctHashes(s)
    ensures |HashSet(s)| == |s|
  {
    if s != [] {
      HashCount(s[..|s| - 1]);
      if s[|s| - 1].hash in HashSet(s[..|s| - 1]) {
        var i := HashSetAt(s[..|s| - 1], s[|s| - 1].hash);
      }
    }
  }

  lemma {:induction false} PickCount(sorted: seq<Entry>, picks: seq<nat>)
    requires PicksIn(sorted, picks)
    ensures |Hashes(sorted, picks)| <= |picks|
  {
    if picks == [] {
      assert Hashes(sorted, picks) == {};
    } else {
      var init := picks[..|picks| - 1];
      PickCount(sorted, init);
      assert Hashes(sorted, picks) == Hashes(sorted, init) + {sorted[picks[|picks| - 1]].hash};
    }
  }

  lemma ChainDistinct(index: Index, genesis: Hash, entries: Entries, h: Hash, first: nat)
    requires TreeOk(index, genesis) && EntriesOk(index, entries) && h in index
    requires first <= |ChainOf(index, genesis, entries, h)|
    ensures DistinctHashes(ChainOf(index, genesis, entries, h)[first..])
  {
    var chain := ChainOf(index, genesis, entries, h);
    forall i, j | 0 <= i < j < |chain| ensures chain[i].hash != chain[j].hash { TwoEntries(index, genesis, entries, h, i, j); }
    hide ChainOf, Path, TreeOk, EntriesOk;
    assert forall i :: 0 <= i < |chain[first..]| ==> chain[first..][i] == chain[first + i];
  }

  lemma TwoEntries(index: Index, genesis: Hash, entries: Entries, h: Hash, i: nat, j: nat)
    requires TreeOk(index, genesis) && EntriesOk(index, entries) && h in index
    requires i < j < |ChainOf(index, genesis, entries, h)|
    ensures ChainOf(index, genesis, entries, h)[i].hash != ChainOf(index, genesis, entries, h)[j].hash
  {
    PathShape(index, genesis, h);
    hide Path, TreeOk;
  }

  /** The walk back from h is at a block of its chain, with `first` blocks up to there, or past the genesis block. */
  ghost predicate Cursor(index: Index, genesis: Hash, entries: Entries, h: Hash, cursor: Option<Hash>, first: nat)
    requires TreeOk(index, genesis) && EntriesOk(index, entries) && h in index
  {
    match cursor
    case None => first == 0
    case Some(a) => Reached(index, genesis, entries, h, a) && a in index && first == index[a].height + 1
  }

  lemma CursorStarts(index: Index, genesis: Hash, entries: Entries, h: Hash)
    requires TreeOk(index, genesis) && EntriesOk(index, entries) && h in index
    ensures Cursor(index, genesis, entries, h, Some(h), |ChainOf(index, genesis, entries, h)|)
  {
    AtTip(index, genesis, entries, h);
  }

  lemma CursorAt(index: Index, genesis: Hash, entries: Entries, h: Hash, cursor: Option<Hash>, first: nat)
    requires TreeOk(index, genesis) && EntriesOk(index, entries) && h in index && Cursor(index, genesis, entries, h, cursor, first)
    ensures cursor.None? ==> first == 0
    ensures cursor.Some? ==>
              && cursor.value in index && cursor.value in entries && 0 < first <= |ChainOf(index, genesis, entries, h)|
              && ChainOf(index, genesis, entries, h)[first - 1] == entries[cursor.value]
  {
    hide Path, ChainOf, TreeOk, EntriesOk, Reached;
    if cursor.Some? { StepBack(index, genesis, entries, h, cursor.value); }
  }

  lemma CursorMoves(index: Index, genesis: Hash, entries: Entries, h: Hash, a: Hash, first: nat)
    requires TreeOk(index, genesis) && EntriesOk(index, entries) && h in index && Cursor(index, genesis, entries, h, Some(a), first)
    ensures a in index && first > 0 && Cursor(index, genesis, entries, h, index[a].prev, first - 1)
  {
    hide Path, ChainOf, TreeOk, EntriesOk, Reached;
    StepBack(index, genesis, entries, h, a);
  }

  /** vec holds the entries from `first` on, latest block first, and none is earlier than start. */
  ghost predicate Gathered(chain: seq<Entry>, start: int, first: nat, vec: seq<Entry>) {
    && first <= |chain| && |vec| == |chain| - first
    && forall j :: 0 <= j < |vec| ==> vec[j] == chain[|chain| - 1 - j] && vec[j].time >= start
  }

  lemma GatheredNone(chain: seq<Entry>, start: int)
    ensures Gathered(chain, start, |chain|, [])
  {
  }

  lemma GatherNext(chain: seq<Entry>, start: int, first: nat, vec: seq<Entry>)
    requires Gathered(chain, start, first, vec) && first > 0 && chain[first - 1].time >= start
    ensures Gathered(chain, start, first - 1, vec + [chain[first - 1]])
  {
  }

  lemma AllGathered(chain: seq<Entry>, start: int, first: nat, vec: seq<Entry>)
    requires Gathered(chain, start, first, vec)
    ensures Reversed(vec) == chain[first..] && forall j :: first <= j < |chain| ==> chain[j].time >= start
  {
    forall j | first <= j < |chain| ensures chain[j].time >= start { assert vec[|chain| - 1 - j] == chain[j]; }
  }

  /** Walk back from the previous block while the blocks are not older than the selection interval. */
  method Candidates(index: Index, genesis: Hash, entries: Entries, h: Hash, start: int) returns (cands: seq<Entry>, ghost first: nat)
    requires TreeOk(index, genesis) && EntriesOk(index, entries) && h in index
    ensures IsFirst(ChainOf(index, genesis, entries, h), start, first)
    ensures cands == ChainOf(index, genesis, entries, h)[first..]
  {
    ghost var chain := ChainOf(index, genesis, entries, h);
    hide Path, ChainOf, TreeOk, EntriesOk, Reached, Reversed, Gathered, Cursor;
    var vec: seq<Entry> := [];
    GatheredNone(chain, start);
    var cursor := Some(h);
    first := |chain|;
    CursorStarts(index, genesis, entries, h);
    CursorAt(index, genesis, entries, h, cursor, first);
    while cursor.Some? && entries[cursor.value].time >= start
      invariant Gathered(chain, start, first, vec) && Cursor(index, genesis, entries, h, cursor, first)
      invariant cursor.Some? ==> cursor.value in index && cursor.value in entries && 0 < first <= |chain| && chain[first - 1] == entries[cursor.value]
      invariant cursor.None? ==> first == 0
      decreases first
    {
      CursorMoves(index, genesis, entries, h, cursor.value, first);
      GatherNext(chain, start, first, vec);
      vec := vec + [entries[cursor.value]];
      first := first - 1;
      cursor := index[cursor.value].prev;
      CursorAt(index, genesis, entries, h, cursor, first);
    }
    cands := Reversed(vec);
    AllGathered(chain, start, first, vec);
  }

  /** One pick a round; selection never fails. */
  method SelectRounds(H: (Hash, nat) -> Hash, interval: nat, start: int, ghost cands: seq<Entry>, sorted: seq<Entry>, modifier: nat)
    returns (ok: bool, result: nat, ghost picks: seq<nat>)
    requires Sorted(Earlier, sorted) && multiset(sorted) == multiset(cands) && DistinctHashes(cands) && |sorted| == |cands|
    ensures ok && |picks| == Min(ROUNDS, |sorted|)
    ensures Selection(H, modifier, interval, start, sorted, picks) && IsBits(sorted, picks, result)
  {
    hide Selection, IsBits, IsPick, Sorted, DistinctHashes, Pow2, Preferred, Eligible, Hashes;
    ok, result, picks := true, 0, [];
    NothingPicked(H, modifier, interval, start, sorted);
    var stop := start;
    var selected: set<Hash> := {};
    var round := 0;
    while round < Min(ROUNDS, |sorted|)
      invariant round == |picks| <= Min(ROUNDS, |sorted|) && PicksIn(sorted, picks)
      invariant stop == start + Sections(interval, round)
      invariant Selection(H, modifier, interval, start, sorted, picks) && IsBits(sorted, picks, result)
      invariant selected == Hashes(sorted, picks)
    {
      stop := stop + Section(interval, round);
      var found, p := SelectBlockFromCandidates(H, sorted, selected, stop, modifier);
      SomeUnpicked(cands, sorted, picks);
      if !found {
        ok := false;
        return;
      }
      SelectionGrows(H, modifier, interval, start, sorted, picks, p);
      BitsGrow(sorted, picks, result, p);
      result := result + (if sorted[p].entropy then 1 else 0) * Pow2(round);
      selected := selected + {sorted[p].hash};
      picks := picks + [p];
      round := round + 1;
    }
  }

  lemma NothingPicked(H: (Hash, nat) -> Hash, modifier: nat, interval: nat, start: int, sorted: seq<Entry>)
    ensures Selection(H, modifier, interval, start, sorted, []) && IsBits(sorted, [], 0) && Hashes(sorted, []) == {}
  {
  }

  lemma SelectionGrows(H: (Hash, nat) -> Hash, modifier: nat, interval: nat, start: int, sorted: seq<Entry>, picks: seq<nat>, p: nat)
    requires Selection(H, modifier, interval, start, sorted, picks) && |picks| < ROUNDS
    requires IsPick(H, modifier, sorted, Hashes(sorted, picks), start + Sections(interval, |picks| + 1), p)
    ensures PicksIn(sorted, picks + [p])
    ensures Selection(H, modifier, interval, start, sorted, picks + [p])
    ensures Hashes(sorted, picks + [p]) == Hashes(sorted, picks) + {sorted[p].hash}
  {
    var q := picks + [p];
    forall k | 0 <= k < |q|
      ensures IsPick(H, modifier, sorted, Hashes(sorted, q[..k]), start + Sections(interval, k + 1), q[k])
    {
      assert q[..k] == picks[..k];
      assert picks[..|picks|] == picks;
    }
    assert q[|picks|] == p;
  }

  lemma BitsGrow(sorted: seq<Entry>, picks: seq<nat>, m: nat, p: nat)
    requires PicksIn(sorted, picks) && p < |sorted| && IsBits(sorted, picks, m)
    ensures IsBits(sorted, picks + [p], m + (if sorted[p].entropy then 1 else 0) * Pow2(|picks|))
  {
    var b, n, q := if sorted[p].entropy then 1 else 0, |picks|, picks + [p];
    BitTop(m, n, b);
    forall k | 0 <= k < |q| ensures BitAt(m + b * Pow2(n), k) == sorted[q[k]].entropy {
      if k < n { BitAbove(m, k, n, b * Pow2(n)); }
    }
  }

  /** No predecessor: the genesis modifier, 0. Otherwise it fails only on a chain that has no modifier at all. */
  method ComputeNextStakeModifier(H: (Hash, nat) -> Hash, interval: nat, index: Index, genesis: Hash, entries: Entries, prev: Option<Hash>)
    returns (ok: bool, modifier: nat, generated: bool)
    requires interval > 0 && TreeOk(index, genesis) && EntriesOk(index, entries) && (prev.Some? ==> prev.value in index)
    ensures prev.None? ==> ok && modifier == 0 && generated
    ensures prev.Some? ==>
              var chain := ChainOf(index, genesis, entries, prev.value);
              && chain != []
              && (ok <==> exists i :: 0 <= i < |chain| && chain[i].generated)
              && (ok ==> IsNext(H, interval, chain, modifier, generated))
  {
    modifier, generated := 0, false;
    if prev.None? { return true, 0, true; }
    ghost var chain := ChainOf(index, genesis, entries, prev.value);
    PathShape(index, genesis, prev.value);
    LastGeneratedIsLast(chain);
    var modTime;
    ok, modifier, modTime := GetLastStakeModifier(index, genesis, entries, prev.value);
    if !ok { return false, 0, false; }
    var time := entries[prev.value].time;
    if modTime / interval >= time / interval { return; }
    var start := Start(interval, time);
    var cands, first := Candidates(index, genesis, entries, prev.value, start);
    EarlierIsTotal();
    SortSorts(Earlier, cands);
    ChainDistinct(index, genesis, entries, prev.value, first);
    var sorted := Sort(Earlier, cands);
    ghost var picks;
    ghost var before := modifier;
    ok, modifier, picks := SelectRounds(H, interval, start, cands, sorted, modifier);
    generated := true;
    assert Regenerated(H, interval, chain, before, first, picks, modifier);
  }
}

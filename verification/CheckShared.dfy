/** The parallel script-check queue: one master and any number of workers share a queue of checks under a
    mutex. A check is represented by its outcome. These are the shared fields and what one thread does to them
    while it holds the lock. */
module CheckShared {
  import opened Basics
  import opened Sequences

  function AllTrue(s: seq<bool>): bool { s == [] || (AllTrue(s[..|s| - 1]) && s[|s| - 1]) }

  lemma {:induction false} AllTrueIs(s: seq<bool>)
    ensures AllTrue(s) <==> forall i :: 0 <= i < |s| ==> s[i]
  {
    if s != [] { AllTrueIs(s[..|s| - 1]); }
  }

  lemma AllTrueConcat(s: seq<bool>, t: seq<bool>)
    ensures AllTrue(s + t) <==> AllTrue(s) && AllTrue(t)
  {
    AllTrueIs(s);
    AllTrueIs(t);
    AllTrueIs(s + t);
    if AllTrue(s + t) {
      forall i | 0 <= i < |t| ensures t[i] { assert (s + t)[|s| + i]; }
      forall i | 0 <= i < |s| ensures s[i] { assert (s + t)[i]; }
    }
  }

  // ------------------------------------------------------------ the shared fields

  datatype Shared = Shared(queue: seq<bool>, nIdle: int, nTotal: int, fAllOk: bool, nTodo: int, fQuit: bool, nBatchSize: nat)

  /** How the code that holds the lock ends: with a batch to run, by leaving the loop, or asleep. */
  datatype Outcome = Batch(checks: seq<bool>, ok: bool) | Exit(ret: bool) | Sleep

  function BatchSize(sh: Shared): (n: nat)
    requires sh.queue != [] && sh.nTotal >= 0 && sh.nIdle >= 0
    ensures 1 <= n <= |sh.queue|
  {
    QuotientBound(|sh.queue|, sh.nTotal + sh.nIdle + 1);
    Max(1, Min(sh.nBatchSize, |sh.queue| / (sh.nTotal + sh.nIdle + 1)))
  }

  /** A batch is 1 check, or no larger than the limit and an even share among the threads and one more; and it is the
      largest such. */
  lemma BatchIsShare(sh: Shared)
    requires sh.queue != [] && sh.nTotal >= 0 && sh.nIdle >= 0
    ensures var n, parts := BatchSize(sh), sh.nTotal + sh.nIdle + 1;
            && (n == 1 || (n <= sh.nBatchSize && n * parts <= |sh.queue|))
            && (n < sh.nBatchSize ==> (n + 1) * parts > |sh.queue|)
  {
    var q, parts := |sh.queue|, sh.nTotal + sh.nIdle + 1;
    assert q == q / parts * parts + q % parts;
    ShareOf(q, parts, BatchSize(sh));
  }

  lemma ShareOf(q: nat, parts: nat, n: nat)
    requires parts > 0
    ensures n <= q / parts ==> n * parts <= q
    ensures n >= q / parts ==> (n + 1) * parts > q
  {
    assert q == q / parts * parts + q % parts;
    if n <= q / parts { MulLess(n, q / parts, parts); } else { MulLess(q / parts, n, parts); }
  }

  lemma MulLess(a: nat, b: nat, p: nat)
    requires a <= b
    ensures a * p <= b * p
  {
  }

  lemma QuotientBound(a: nat, b: nat)
    requires b > 0
    ensures 0 <= a / b <= a
  {
    var q, r := a / b, a % b;
    assert a == b * q + r;
    Product(q, b - 1);
    assert b * q == q * (b - 1) + q;
  }

  lemma Product(x: nat, y: nat)
    ensures x * y >= 0
  {
  }

  /** Account for a finished batch of n checks. */
  function Finished(sh: Shared, n: nat, ok: bool): Shared {
    sh.(fAllOk := sh.fAllOk && ok, nTodo := sh.nTodo - n)
  }

  /** What a thread does once its last batch is accounted for: take the next one off the end of the queue, leave
      when there is nothing left to wait for, or go to sleep. */
  function Settled(sh: Shared, master: bool): (Shared, Outcome)
    requires sh.nTotal >= 0 && sh.nIdle >= 0
  {
    if sh.queue != [] then
      var n := BatchSize(sh);
      (sh.(queue := sh.queue[..|sh.queue| - n]), Batch(Reversed(sh.queue[|sh.queue| - n..]), sh.fAllOk))
    else if (master || sh.fQuit) && sh.nTodo == 0 then
      (sh.(nTotal := sh.nTotal - 1, fAllOk := sh.fAllOk || master), Exit(sh.fAllOk))
    else
      (sh.(nIdle := sh.nIdle + 1), Sleep)
  }

  lemma {:induction false} ReversedAllTrue(s: seq<bool>)
    ensures |Reversed(s)| == |s| && (AllTrue(Reversed(s)) <==> AllTrue(s))
  {
    if s != [] {
      ReversedAllTrue(s[..|s| - 1]);
      ReversedSnoc(s[..|s| - 1], s[|s| - 1]);
      assert s == s[..|s| - 1] + [s[|s| - 1]];
      AllTrueConcat([s[|s| - 1]], Reversed(s[..|s| - 1]));
      assert [s[|s| - 1]][..0] == [];
    }
  }
}

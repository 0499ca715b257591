/** The check queue as a protocol: thread 0 is the master, the others are workers, and every interleaving of
    their steps is a run. */
module CheckProtocol {
  import opened Sequences
  import opened CheckShared

  /** Where a thread is: not in the loop, about to take the lock for the first time, asleep on its condition
      variable (signalled or not), or outside the lock with a batch picked up when fAllOk was startOk. */
  datatype Phase = Outside | Entering | Waiting(notified: bool) | Working(batch: seq<bool>, startOk: bool)

  /** added is the history of checks added since the master last returned. */
  datatype State = State(sh: Shared, threads: seq<Phase>, added: seq<bool>)

  datatype Action = Enter(t: nat) | Locked(t: nat) | Wake(t: nat) | AddChecks(checks: seq<bool>, woken: set<nat>) | Quit

  datatype Event = Silent | Added(checks: seq<bool>) | Returned(ok: bool)

  predicate Initial(s: State) {
    && s.sh == Shared([], 0, 0, true, 0, false, s.sh.nBatchSize) && s.added == []
    && s.threads != [] && forall t :: 0 <= t < |s.threads| ==> s.threads[t].Outside?
  }

  /** Which sleeping workers a notification of condWorker may signal. */
  predicate MayWake(s: State, checks: seq<bool>, woken: set<nat>) {
    && (forall t :: t in woken ==> 0 < t < |s.threads| && s.threads[t].Waiting?)
    && (|checks| == 0 ==> woken == {})
    && (|checks| == 1 ==> |woken| <= 1)
    && (|checks| > 1 ==> forall t :: 0 < t < |s.threads| && s.threads[t].Waiting? ==> t in woken)
  }

  predicate Enabled(s: State, a: Action) {
    match a
    case Enter(t) => t < |s.threads| && s.threads[t].Outside?
    case Locked(t) => t < |s.threads| && (s.threads[t].Entering? || s.threads[t].Working?) && s.sh.nTotal >= 0 && s.sh.nIdle >= 0
    case Wake(t) => t < |s.threads| && s.threads[t].Waiting? && s.sh.nTotal >= 0 && s.sh.nIdle > 0
    case AddChecks(checks, woken) => s.threads != [] && s.threads[0].Outside? && MayWake(s, checks, woken)
    case Quit => true
  }

  function Signal(threads: seq<Phase>, woken: set<nat>): seq<Phase> {
    seq(|threads|, t requires 0 <= t < |threads| =>
      if t in woken && threads[t].Waiting? then Waiting(true) else threads[t])
  }

  function Workers(s: State): set<nat> { set t | 0 < t < |s.threads| && s.threads[t].Waiting? }

  /** Give thread t the place its outcome calls for; the master's exit is its return. */
  function PlaceThread(s: State, t: nat, sh: Shared): (State, Event)
    requires t < |s.threads| && sh.nTotal >= 0 && sh.nIdle >= 0
  {
    var (sh', r) := Settled(sh, t == 0);
    match r
    case Batch(checks, ok) => (State(sh', s.threads[t := Working(checks, ok)], s.added), Silent)
    case Sleep => (State(sh', s.threads[t := Waiting(false)], s.added), Silent)
    case Exit(ret) =>
      (State(sh', s.threads[t := Outside], if t == 0 then [] else s.added), if t == 0 then Returned(ret) else Silent)
  }

  /** A thread that has run its batch accounts for it, telling a sleeping master when nothing is left. */
  function Account(s: State, t: nat): State
    requires t < |s.threads| && s.threads[t].Working?
  {
    var p := s.threads[t];
    var sh := Finished(s.sh, |p.batch|, p.startOk && AllTrue(p.batch));
    s.(sh := sh, threads := if sh.nTodo == 0 && t != 0 then Signal(s.threads, {0}) else s.threads)
  }

  function Next(s: State, a: Action): (State, Event)
    requires Enabled(s, a)
  {
    match a
    case Enter(t) => (s.(threads := s.threads[t := Entering]), Silent)
    case Locked(t) =>
      if s.threads[t].Entering? then PlaceThread(s, t, s.sh.(nTotal := s.sh.nTotal + 1))
      else var s1 := Account(s, t); PlaceThread(s1, t, s1.sh)
    case Wake(t) => PlaceThread(s, t, s.sh.(nIdle := s.sh.nIdle - 1))
    case AddChecks(checks, woken) =>
      (State(s.sh.(queue := s.sh.queue + checks, nTodo := s.sh.nTodo + |checks|), Signal(s.threads, woken), s.added + checks),
       Added(checks))
    case Quit => (s.(sh := s.sh.(fQuit := true), threads := Signal(s.threads, Workers(s))), Silent)
  }

  // ------------------------------------------------------------ the invariant

  function Sum(threads: seq<Phase>, f: Phase -> int): int {
    if threads == [] then 0 else Sum(threads[..|threads| - 1], f) + f(threads[|threads| - 1])
  }

  lemma {:induction false} SumUpdate(threads: seq<Phase>, f: Phase -> int, t: nat, p: Phase)
    requires t < |threads|
    ensures Sum(threads[t := p], f) == Sum(threads, f) - f(threads[t]) + f(p)
  {
    var n := |threads| - 1;
    if t == n {
      assert threads[t := p][..n] == threads[..n];
    } else {
      SumUpdate(threads[..n], f, t, p);
      assert threads[t := p][..n] == threads[..n][t := p];
    }
  }

  lemma {:induction false} SumSame(a: seq<Phase>, b: seq<Phase>, f: Phase -> int)
    requires |a| == |b| && forall t :: 0 <= t < |a| ==> f(a[t]) == f(b[t])
    ensures Sum(a, f) == Sum(b, f)
  {
    if a != [] { SumSame(a[..|a| - 1], b[..|b| - 1], f); }
  }

  lemma {:induction false} SumLe(a: seq<Phase>, f: Phase -> int, g: Phase -> int)
    requires forall p :: f(p) <= g(p)
    ensures Sum(a, f) <= Sum(a, g)
    ensures forall t :: 0 <= t < |a| && f(a[t]) < g(a[t]) ==> Sum(a, f) < Sum(a, g)
  {
    if a != [] { SumLe(a[..|a| - 1], f, g); }
  }

  function Load(p: Phase): int { if p.Working? then |p.batch| else 0 }
  function IsAsleep(p: Phase): int { if p.Waiting? then 1 else 0 }
  function IsInside(p: Phase): int { if p.Waiting? || p.Working? then 1 else 0 }
  function Zero(p: Phase): int { 0 }

  function InFlight(threads: seq<Phase>): int { Sum(threads, Load) }
  function Asleep(threads: seq<Phase>): int { Sum(threads, IsAsleep) }
  function Inside(threads: seq<Phase>): int { Sum(threads, IsInside) }

  predicate PhaseOk(p: Phase) { p.Working? ==> p.batch != [] }

  /** The batch will leave fAllOk as it is. */
  predicate Passes(p: Phase) { p.Working? ==> p.startOk && AllTrue(p.batch) }

  ghost predicate AllPass(threads: seq<Phase>) { forall t :: 0 <= t < |threads| ==> Passes(threads[t]) }

  ghost predicate Inv(s: State) {
    && s.threads != [] && (forall t :: 0 <= t < |s.threads| ==> PhaseOk(s.threads[t]))
    && s.sh.nTodo == |s.sh.queue| + InFlight(s.threads) && s.sh.nTodo <= |s.added|
    && s.sh.nIdle == Asleep(s.threads) && s.sh.nTotal == Inside(s.threads)
    && (AllTrue(s.added) <==> s.sh.fAllOk && AllTrue(s.sh.queue) && AllPass(s.threads))
    && (s.threads[0].Waiting? ==> s.sh.queue == [] && (!s.threads[0].notified ==> s.sh.nTodo > 0))
  }

  lemma {:induction false} SumZero(threads: seq<Phase>)
    ensures Sum(threads, Zero) == 0
  {
    if threads != [] { SumZero(threads[..|threads| - 1]); }
  }

  /** Counts are not negative, and a positive one has a witness. */
  lemma CountsOk(threads: seq<Phase>)
    ensures 0 <= Asleep(threads) <= Inside(threads) && 0 <= InFlight(threads)
    ensures forall t :: 0 <= t < |threads| && threads[t].Waiting? ==> Asleep(threads) > 0
    ensures forall t :: 0 <= t < |threads| && threads[t].Working? && threads[t].batch != [] ==>
              InFlight(threads) > 0 && Asleep(threads) < Inside(threads)
  {
    SumZero(threads);
    SumLe(threads, Zero, IsAsleep);
    SumLe(threads, IsAsleep, IsInside);
    SumLe(threads, Zero, Load);
  }

  // ------------------------------------------------------------ every step keeps it

  /** The state with thread t taken out of the loop: what the lock holder sees of the others. */
  function Apart(s: State, t: nat, sh: Shared): State
    requires t < |s.threads|
  {
    State(sh.(nTotal := sh.nTotal - 1), s.threads[t := Outside], s.added)
  }

  lemma AllPassPut(threads: seq<Phase>, t: nat, p: Phase)
    requires t < |threads| && threads[t].Outside?
    ensures AllPass(threads[t := p]) <==> AllPass(threads) && Passes(p)
  {
    var w := threads[t := p];
    if AllPass(w) {
      assert Passes(w[t]);
      forall i | 0 <= i < |threads| ensures Passes(threads[i]) { if i != t { assert Passes(w[i]); } }
    }
  }

  /** Replacing the phase of one thread that is outside. */
  lemma PutPhase(threads: seq<Phase>, t: nat, p: Phase)
    requires t < |threads| && threads[t].Outside?
    ensures InFlight(threads[t := p]) == InFlight(threads) + Load(p)
    ensures Asleep(threads[t := p]) == Asleep(threads) + IsAsleep(p)
    ensures Inside(threads[t := p]) == Inside(threads) + IsInside(p)
    ensures AllPass(threads[t := p]) <==> AllPass(threads) && Passes(p)
  {
    AllPassPut(threads, t, p);
    SumUpdate(threads, Load, t, p);
    SumUpdate(threads, IsAsleep, t, p);
    SumUpdate(threads, IsInside, t, p);
  }

  lemma TakePhase(threads: seq<Phase>, t: nat)
    requires t < |threads|
    ensures InFlight(threads[t := Outside]) == InFlight(threads) - Load(threads[t])
    ensures Asleep(threads[t := Outside]) == Asleep(threads) - IsAsleep(threads[t])
    ensures Inside(threads[t := Outside]) == Inside(threads) - IsInside(threads[t])
    ensures AllPass(threads) <==> AllPass(threads[t := Outside]) && Passes(threads[t])
  {
    AllPassPut(threads[t := Outside], t, threads[t]);
    assert threads[t := Outside][t := threads[t]] == threads;
    SumUpdate(threads, Load, t, Outside);
    SumUpdate(threads, IsAsleep, t, Outside);
    SumUpdate(threads, IsInside, t, Outside);
  }

  lemma SplitBatch(queue: seq<bool>, n: nat)
    requires n <= |queue|
    ensures var low, tail := queue[..|queue| - n], queue[|queue| - n..];
            |Reversed(tail)| == n && (AllTrue(queue) <==> AllTrue(low) && AllTrue(Reversed(tail)))
  {
    var low, tail := queue[..|queue| - n], queue[|queue| - n..];
    assert queue == low + tail;
    AllTrueConcat(low, tail);
    ReversedAllTrue(tail);
  }

  lemma PlaceBatch(s: State, t: nat, sh: Shared)
    requires t < |s.threads| && sh.nTotal >= 0 && sh.nIdle >= 0 && Inv(Apart(s, t, sh)) && sh.queue != []
    ensures Inv(PlaceThread(s, t, sh).0)
  {
    var s0 := Apart(s, t, sh);
    var n := BatchSize(sh);
    var low, tail := sh.queue[..|sh.queue| - n], sh.queue[|sh.queue| - n..];
    var p := Working(Reversed(tail), sh.fAllOk);
    SplitBatch(sh.queue, n);
    PutPhase(s0.threads, t, p);
    assert s.threads[t := p] == s0.threads[t := p];
    hide AllTrue, Reversed, InFlight, Asleep, Inside, AllPass;
  }

  lemma PlaceSleep(s: State, t: nat, sh: Shared)
    requires t < |s.threads| && sh.nTotal >= 0 && sh.nIdle >= 0 && Inv(Apart(s, t, sh)) && Settled(sh, t == 0).1.Sleep?
    ensures Inv(PlaceThread(s, t, sh).0)
  {
    var s0 := Apart(s, t, sh);
    PutPhase(s0.threads, t, Waiting(false));
    CountsOk(s0.threads);
    assert s.threads[t := Waiting(false)] == s0.threads[t := Waiting(false)];
  }

  /** Nothing in flight means that nobody holds a batch. */
  lemma NobodyWorks(s: State)
    requires Inv(s) && s.sh.nTodo == 0
    ensures s.sh.queue == [] && forall t :: 0 <= t < |s.threads| ==> !s.threads[t].Working?
  {
    CountsOk(s.threads);
  }

  lemma PlaceExit(s: State, t: nat, sh: Shared)
    requires t < |s.threads| && sh.nTotal >= 0 && sh.nIdle >= 0 && Inv(Apart(s, t, sh)) && Settled(sh, t == 0).1.Exit?
    ensures Inv(PlaceThread(s, t, sh).0)
    ensures t == 0 ==> PlaceThread(s, t, sh).1 == Returned(AllTrue(s.added))
  {
    NobodyWorks(Apart(s, t, sh));
  }

  lemma PlaceInv(s: State, t: nat, sh: Shared)
    requires t < |s.threads| && sh.nTotal >= 0 && sh.nIdle >= 0 && Inv(Apart(s, t, sh))
    ensures Inv(PlaceThread(s, t, sh).0)
    ensures PlaceThread(s, t, sh).1.Returned? ==> PlaceThread(s, t, sh).1.ok == AllTrue(s.added)
  {
    if sh.queue != [] { PlaceBatch(s, t, sh); }
    else if Settled(sh, t == 0).1.Sleep? { PlaceSleep(s, t, sh); }
    else { PlaceExit(s, t, sh); }
  }

  lemma SignalKeeps(threads: seq<Phase>, woken: set<nat>)
    ensures var w := Signal(threads, woken);
            && |w| == |threads| && InFlight(w) == InFlight(threads) && Asleep(w) == Asleep(threads) && Inside(w) == Inside(threads)
            && (forall t :: 0 <= t < |w| ==> w[t] == threads[t] || (threads[t].Waiting? && w[t] == Waiting(true) && t in woken))
            && (forall t :: 0 <= t < |w| && t !in woken ==> w[t] == threads[t])
            && (AllPass(w) <==> AllPass(threads))
  {
    var w := Signal(threads, woken);
    assert forall t :: 0 <= t < |w| ==> (Passes(w[t]) <==> Passes(threads[t]));
    SumSame(w, threads, Load);
    SumSame(w, threads, IsAsleep);
    SumSame(w, threads, IsInside);
  }

  /** A thread that accounts for its batch leaves the others in order, and the master signalled if it was the last. */
  lemma AccountInv(s: State, t: nat)
    requires Inv(s) && t < |s.threads| && s.threads[t].Working?
    ensures var s1 := Account(s, t); |s1.threads| == |s.threads| && Inv(Apart(s1, t, s1.sh)) && s1.added == s.added
  {
    var s1 := Account(s, t);
    SignalKeeps(s.threads, {0});
    TakePhase(s1.threads, t);
    CountsOk(s1.threads[t := Outside]);
  }

  lemma EnterLockInv(s: State, t: nat)
    requires Inv(s) && Enabled(s, Locked(t)) && s.threads[t].Entering?
    ensures Inv(Next(s, Locked(t)).0)
    ensures Next(s, Locked(t)).1.Returned? ==> Next(s, Locked(t)).1.ok == AllTrue(s.added)
  {
    TakePhase(s.threads, t);
    PlaceInv(s, t, s.sh.(nTotal := s.sh.nTotal + 1));
  }

  lemma WorkLockInv(s: State, t: nat)
    requires Inv(s) && Enabled(s, Locked(t)) && s.threads[t].Working?
    ensures Inv(Next(s, Locked(t)).0)
    ensures Next(s, Locked(t)).1.Returned? ==> Next(s, Locked(t)).1.ok == AllTrue(s.added)
  {
    hide Inv, PlaceThread;
    var s1 := Account(s, t);
    AccountInv(s, t);
    PlaceInv(s1, t, s1.sh);
  }

  lemma WakeInv(s: State, t: nat)
    requires Inv(s) && Enabled(s, Wake(t))
    ensures Inv(Next(s, Wake(t)).0)
    ensures Next(s, Wake(t)).1.Returned? ==> Next(s, Wake(t)).1.ok == AllTrue(s.added)
  {
    TakePhase(s.threads, t);
    PlaceInv(s, t, s.sh.(nIdle := s.sh.nIdle - 1));
  }

  lemma AddInv(s: State, checks: seq<bool>, woken: set<nat>)
    requires Inv(s) && Enabled(s, AddChecks(checks, woken))
    ensures Inv(Next(s, AddChecks(checks, woken)).0)
  {
    SignalKeeps(s.threads, woken);
    AllTrueConcat(s.added, checks);
    AllTrueConcat(s.sh.queue, checks);
  }

  /** Every step of every thread keeps the invariant, and the master returns the conjunction of the checks. */
  lemma StepInv(s: State, a: Action)
    requires Inv(s) && Enabled(s, a)
    ensures Inv(Next(s, a).0)
    ensures Next(s, a).1.Returned? ==> Next(s, a).1.ok == AllTrue(s.added)
  {
    match a
    case Enter(t) =>
      PutPhase(s.threads, t, Entering);
    case Locked(t) =>
      if s.threads[t].Entering? { EnterLockInv(s, t); } else { WorkLockInv(s, t); }
    case Wake(t) => WakeInv(s, t);
    case AddChecks(checks, woken) => AddInv(s, checks, woken);
    case Quit =>
      SignalKeeps(s.threads, Workers(s));
  }

  // ------------------------------------------------------------ whole runs

  ghost predicate IsRun(states: seq<State>, actions: seq<Action>) {
    && |states| == |actions| + 1 && Initial(states[0])
    && forall i :: 0 <= i < |actions| ==> Enabled(states[i], actions[i]) && states[i + 1] == Next(states[i], actions[i]).0
  }

  /** The checks added in the first n steps since the master last returned, read off the events. */
  ghost function AddedSince(states: seq<State>, actions: seq<Action>, n: nat): seq<bool>
    requires IsRun(states, actions) && n <= |actions|
  {
    if n == 0 then [] else
    match Next(states[n - 1], actions[n - 1]).1
    case Silent => AddedSince(states, actions, n - 1)
    case Added(checks) => AddedSince(states, actions, n - 1) + checks
    case Returned(_) => []
  }

  lemma InitialInv(s: State)
    requires Initial(s)
    ensures Inv(s)
  {
    AllOutside(s.threads);
  }

  lemma {:induction false} AllOutside(threads: seq<Phase>)
    requires forall t :: 0 <= t < |threads| ==> threads[t].Outside?
    ensures InFlight(threads) == 0 && Asleep(threads) == 0 && Inside(threads) == 0
  {
    if threads != [] { AllOutside(threads[..|threads| - 1]); }
  }

  lemma {:induction false} RunInv(states: seq<State>, actions: seq<Action>, n: nat)
    requires IsRun(states, actions) && n <= |actions|
    ensures Inv(states[n]) && states[n].added == AddedSince(states, actions, n)
  {
    if n == 0 {
      InitialInv(states[0]);
    } else {
      RunInv(states, actions, n - 1);
      StepInv(states[n - 1], actions[n - 1]);
      HistoryFollows(states[n - 1], actions[n - 1]);
    }
  }

  lemma HistoryFollows(s: State, a: Action)
    requires Enabled(s, a)
    ensures var (s', e) := Next(s, a);
            s'.added == match e case Silent => s.added case Added(checks) => s.added + checks case Returned(_) => []
  {
  }

  /** In every run, under every interleaving, the master returns true exactly when every check added since
      its last return is true. */
  lemma VerdictIsExact(states: seq<State>, actions: seq<Action>, n: nat)
    requires IsRun(states, actions) && n < |actions| && Next(states[n], actions[n]).1.Returned?
    ensures Next(states[n], actions[n]).1.ok <==>
            forall i :: 0 <= i < |AddedSince(states, actions, n)| ==> AddedSince(states, actions, n)[i]
  {
    RunInv(states, actions, n);
    StepInv(states[n], actions[n]);
    AllTrueIs(AddedSince(states, actions, n));
  }

  /** The three assertions of the control object hold whenever the master is outside with nothing added. */
  lemma QuiescentAsserts(states: seq<State>, actions: seq<Action>, n: nat)
    requires IsRun(states, actions) && n <= |actions|
    requires states[n].threads != [] && states[n].threads[0].Outside? && AddedSince(states, actions, n) == []
    ensures states[n].sh.nTotal == states[n].sh.nIdle && states[n].sh.nTodo == 0 && states[n].sh.fAllOk
  {
    RunInv(states, actions, n);
    var s := states[n];
    CountsOk(s.threads);
    NobodyWorks(s);
    SumSameOn(s.threads);
  }

  lemma {:induction false} SumSameOn(threads: seq<Phase>)
    requires forall t :: 0 <= t < |threads| ==> !threads[t].Working?
    ensures Asleep(threads) == Inside(threads)
  {
    if threads != [] { SumSameOn(threads[..|threads| - 1]); }
  }

  lemma {:induction false} SomeoneWorks(threads: seq<Phase>)
    requires InFlight(threads) > 0
    ensures exists t :: 0 <= t < |threads| && threads[t].Working?
  {
    if threads[|threads| - 1].Working? {
    } else {
      SomeoneWorks(threads[..|threads| - 1]);
      var t :| 0 <= t < |threads| - 1 && threads[..|threads| - 1][t].Working?;
      assert threads[t].Working?;
    }
  }

  /** No wake-up is lost: while the master sleeps unsignalled, a worker still holds work. */
  lemma SleepingMasterHasWorker(s: State)
    requires Inv(s) && s.threads[0].Waiting? && !s.threads[0].notified
    ensures exists t :: 0 < t < |s.threads| && s.threads[t].Working?
  {
    SomeoneWorks(s.threads);
  }

  /** A step that is not a spurious wake-up, by a thread that is in the loop already. */
  predicate Productive(s: State, a: Action) {
    Enabled(s, a) && (a.Locked? || (a.Wake? && s.threads[a.t].notified))
  }

  /** While the master waits for the verdict, some thread can go on. */
  lemma MasterNeverStuck(s: State)
    requires Inv(s) && !s.threads[0].Outside?
    ensures exists a :: Productive(s, a)
  {
    CountsOk(s.threads);
    if s.threads[0].Waiting? && s.threads[0].notified {
      assert Productive(s, Wake(0));
    } else if s.threads[0].Waiting? {
      SleepingMasterHasWorker(s);
      var t :| 0 < t < |s.threads| && s.threads[t].Working?;
      assert Productive(s, Locked(t));
    } else {
      assert Productive(s, Locked(0));
    }
  }

  function Weight(p: Phase): int {
    match p
    case Outside => 0
    case Entering => 2
    case Waiting(notified) => if notified then 1 else 0
    case Working(batch, _) => 3 * |batch|
  }

  /** A bound on the productive steps still possible. */
  function Rank(s: State): int { 4 * |s.sh.queue| + Sum(s.threads, Weight) }

  lemma RankNonNegative(s: State)
    ensures Rank(s) >= 0
  {
    SumZero(s.threads);
    SumLe(s.threads, Zero, Weight);
  }

  lemma PlaceRank(s: State, t: nat, sh: Shared)
    requires t < |s.threads| && sh.nTotal >= 0 && sh.nIdle >= 0
    ensures Rank(PlaceThread(s, t, sh).0) <= 4 * |sh.queue| + Sum(s.threads, Weight) - Weight(s.threads[t])
  {
    var p := PlaceThread(s, t, sh).0.threads[t];
    SumUpdate(s.threads, Weight, t, p);
    if sh.queue != [] {
      ReversedAllTrue(sh.queue[|sh.queue| - BatchSize(sh)..]);
    }
  }

  /** Every productive step uses up some of the bound. */
  lemma RankDecreases(s: State, a: Action)
    requires Inv(s) && Productive(s, a)
    ensures Rank(Next(s, a).0) < Rank(s)
  {
    var t := a.t;
    if a.Wake? {
      PlaceRank(s, t, s.sh.(nIdle := s.sh.nIdle - 1));
    } else if s.threads[t].Entering? {
      PlaceRank(s, t, s.sh.(nTotal := s.sh.nTotal + 1));
    } else {
      var s1 := Account(s, t);
      AccountWeight(s, t);
      PlaceRank(s1, t, s1.sh);
    }
  }

  lemma AccountWeight(s: State, t: nat)
    requires Inv(s) && t < |s.threads| && s.threads[t].Working?
    ensures var s1 := Account(s, t);
            && Sum(s1.threads, Weight) <= Sum(s.threads, Weight) + 1 && |s1.threads| == |s.threads|
            && s1.threads[t] == s.threads[t]
  {
    var s1 := Account(s, t);
    if s1.threads != s.threads {
      SumUpdate(s.threads, Weight, 0, s1.threads[0]);
      assert s1.threads == s.threads[0 := s1.threads[0]];
    }
  }

  /** What an action may add to the bound: a thread that enters will take the lock once more, and a shutdown wakes
      the sleeping workers. */
  function Cost(s: State, a: Action): nat {
    match a
    case Enter(_) => 2
    case Quit => |s.threads|
    case _ => 0
  }

  lemma {:induction false} SignalWeight(a: seq<Phase>, b: seq<Phase>)
    requires |a| == |b| && forall t :: 0 <= t < |a| ==> b[t] == a[t] || (a[t].Waiting? && b[t].Waiting?)
    ensures Sum(b, Weight) <= Sum(a, Weight) + |a|
  {
    if a != [] { SignalWeight(a[..|a| - 1], b[..|b| - 1]); }
  }

  /** No step but the adding of checks raises the bound by more than its cost, and a productive one lowers it. */
  lemma RankStep(s: State, a: Action)
    requires Inv(s) && Enabled(s, a) && !a.AddChecks?
    ensures Rank(Next(s, a).0) + (if Productive(s, a) then 1 else 0) <= Rank(s) + Cost(s, a)
  {
    if Productive(s, a) {
      RankDecreases(s, a);
    } else {
      match a
      case Enter(t) => SumUpdate(s.threads, Weight, t, Entering);
      case Wake(t) => PlaceRank(s, t, s.sh.(nIdle := s.sh.nIdle - 1));
      case Quit =>
        SignalKeeps(s.threads, Workers(s));
        SignalWeight(s.threads, Signal(s.threads, Workers(s)));
    }
  }

  /** Any steps of any threads during which no checks are added; the master adds none while it waits. */
  ghost predicate WaitRun(states: seq<State>, actions: seq<Action>) {
    && |states| == |actions| + 1 && Inv(states[0])
    && forall i :: 0 <= i < |actions| ==>
         Enabled(states[i], actions[i]) && !actions[i].AddChecks? && states[i + 1] == Next(states[i], actions[i]).0
  }

  ghost function ProductiveSteps(states: seq<State>, actions: seq<Action>): nat
    requires |states| == |actions| + 1
  {
    if actions == [] then 0
    else (if Productive(states[0], actions[0]) then 1 else 0) + ProductiveSteps(states[1..], actions[1..])
  }

  ghost function TotalCost(states: seq<State>, actions: seq<Action>): nat
    requires |states| == |actions| + 1
  {
    if actions == [] then 0 else Cost(states[0], actions[0]) + TotalCost(states[1..], actions[1..])
  }

  /** A wait comes to its end, also with spurious wake-ups and threads entering or a shutdown meanwhile: the
      productive steps are bounded by what was there and what those add, and they cannot all stop before the
      master has returned. */
  lemma {:induction false} WaitEnds(states: seq<State>, actions: seq<Action>)
    requires WaitRun(states, actions)
    ensures ProductiveSteps(states, actions) <= Rank(states[0]) + TotalCost(states, actions)
    ensures var last := states[|actions|];
            Inv(last) && ((forall a :: !Productive(last, a)) ==> last.threads[0].Outside?)
  {
    RankNonNegative(states[0]);
    if actions == [] {
      if !states[0].threads[0].Outside? { MasterNeverStuck(states[0]); }
    } else {
      hide Inv, Productive, Enabled, Next, Rank, Cost;
      StepInv(states[0], actions[0]);
      RankStep(states[0], actions[0]);
      assert WaitRun(states[1..], actions[1..]);
      WaitEnds(states[1..], actions[1..]);
      assert states[1..][|actions[1..]|] == states[|actions|];
    }
  }
}

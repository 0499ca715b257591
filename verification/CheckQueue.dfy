/** The check queue's code: each critical section is one step of the protocol, so the object is always in a
    state the protocol can be in. */
module CheckQueue {
  import opened Basics
  import opened Sequences
  import opened CheckShared
  import opened CheckProtocol

  /** What a thread finds itself doing after a critical section; the master that leaves has its verdict. */
  ghost predicate Does(s: State, s': State, t: nat, r: Outcome)
    requires t < |s'.threads|
  {
    match r
    case Batch(checks, ok) => s'.threads[t] == Working(checks, ok)
    case Sleep => s'.threads[t] == Waiting(false)
    case Exit(ret) => s'.threads[t].Outside? && (t == 0 ==> ret == AllTrue(s.added) && s'.added == [])
  }

  /** The fields as a thread that takes the lock has brought them up to date. */
  function Arrived(s: State, t: nat): Shared
    requires t < |s.threads|
  {
    var p := s.threads[t];
    match p
    case Working(batch, startOk) => Finished(s.sh, |batch|, startOk && AllTrue(batch))
    case Waiting(_) => s.sh.(nIdle := s.sh.nIdle - 1)
    case _ => s.sh.(nTotal := s.sh.nTotal + 1)
  }

  function StepOf(p: Phase, t: nat): Action { if p.Waiting? then Wake(t) else Locked(t) }

  /** A thread in the loop can take its step, and the step is to settle the fields it arrives with. */
  lemma StepSettles(s: State, t: nat)
    requires Inv(s) && t < |s.threads| && !s.threads[t].Outside?
    ensures var a := StepOf(s.threads[t], t);
            && Enabled(s, a) && Inv(Next(s, a).0) && |Next(s, a).0.threads| == |s.threads|
            && Arrived(s, t).nTotal >= 0 && Arrived(s, t).nIdle >= 0
            && Next(s, a).0.sh == Settled(Arrived(s, t), t == 0).0
            && Does(s, Next(s, a).0, t, Settled(Arrived(s, t), t == 0).1)
  {
    hide Settled, Inv, AllTrue, Finished;
    ArrivedOk(s, t);
    StepInv(s, StepOf(s.threads[t], t));
  }

  lemma ArrivedOk(s: State, t: nat)
    requires Inv(s) && t < |s.threads| && !s.threads[t].Outside?
    ensures Enabled(s, StepOf(s.threads[t], t)) && Arrived(s, t).nTotal >= 0 && Arrived(s, t).nIdle >= 0
    ensures var (_, e) := Next(s, StepOf(s.threads[t], t)); e.Returned? ==> e.ok == AllTrue(s.added)
  {
    CountsOk(s.threads);
    StepInv(s, StepOf(s.threads[t], t));
    hide AllTrue;
  }

  /** The master is signalled when a worker accounts for the last check. */
  lemma MasterSignalled(s: State, t: nat)
    requires Inv(s) && 0 < t < |s.threads| && s.threads[t].Working? && s.threads[0].Waiting? && Arrived(s, t).nTodo == 0
    ensures Enabled(s, Locked(t)) && Next(s, Locked(t)).0.threads[0] == Waiting(true)
  {
    CountsOk(s.threads);
    hide Settled;
  }

  /** Run a batch outside the lock: the rest is skipped after the first failure. */
  method Execute(checks: seq<bool>, ok: bool) returns (r: bool)
    ensures r <==> ok && AllTrue(checks)
  {
    r := ok;
    for i := 0 to |checks|
      invariant r <==> ok && AllTrue(checks[..i])
    {
      assert checks[..i + 1][..i] == checks[..i];
      if r { r := checks[i]; }
    }
    assert checks[..|checks|] == checks;
  }

  class CheckQueue {
    var queue: seq<bool>
    var nIdle: int
    var nTotal: int
    var fAllOk: bool
    var nTodo: int
    var fQuit: bool
    const nBatchSize: nat
    ghost var state: State   // the object as the protocol sees it, with every thread's place

    function View(): Shared
      reads this
    {
      Shared(queue, nIdle, nTotal, fAllOk, nTodo, fQuit, nBatchSize)
    }

    ghost predicate Valid()
      reads this
    {
      state.sh == View() && Inv(state)
    }

    constructor (batchSize: nat, ghost workers: nat)
      ensures Valid() && Initial(state) && |state.threads| == workers + 1 && nBatchSize == batchSize
    {
      queue, nIdle, nTotal, fAllOk, nTodo, fQuit := [], 0, 0, true, 0, false;
      nBatchSize := batchSize;
      state := State(Shared([], 0, 0, true, 0, false, batchSize), seq(workers + 1, _ => Outside), []);
      new;
      InitialInv(state);
    }

    /** Take a batch off the end of the queue, leave the loop, or go to sleep. */
    method Settle(master: bool) returns (r: Outcome, notifyQuit: bool)
      requires nTotal >= 0 && nIdle >= 0
      modifies this`queue, this`nTotal, this`nIdle, this`fAllOk
      ensures (View(), r) == Settled(old(View()), master)
      ensures notifyQuit <==> r.Exit? && nTotal == 0
    {
      notifyQuit := false;
      if queue == [] {
        if (master || fQuit) && nTodo == 0 {
          nTotal := nTotal - 1;
          if nTotal == 0 { notifyQuit := true; }
          var ret := fAllOk;
          if master { fAllOk := true; }
          return Exit(ret), notifyQuit;
        }
        nIdle := nIdle + 1;
        return Sleep, false;
      }
      var checks := TakeBatch(BatchSize(View()));
      r := Batch(checks, fAllOk);
    }

    method TakeBatch(n: nat) returns (checks: seq<bool>)
      requires n <= |queue|
      modifies this`queue
      ensures var all := old(queue); queue == all[..|all| - n] && checks == Reversed(all[|all| - n..])
    {
      checks := [];
      ghost var all := queue;
      for i := 0 to n
        modifies this`queue
        invariant queue == all[..|all| - i] && checks == Reversed(all[|all| - i..])
      {
        ghost var x := all[|all| - (i + 1)];
        ReversedCons(x, all[|all| - i..]);
        assert all[|all| - (i + 1)..] == [x] + all[|all| - i..];
        checks := checks + [queue[|queue| - 1]];
        queue := queue[..|queue| - 1];
      }
    }

    /** Thread t takes the lock: for the first time (nNow is 0), or after running a batch of nNow checks with the
        result fOk. It is a step of the protocol; a sleeping master is signalled exactly when a worker accounts
        for the last check; and when the master leaves, it returns whether every check added since its last
        return is true. */
    method TakeLock(t: nat, nNow: nat, fOk: bool) returns (r: Outcome, notifyMaster: bool, notifyQuit: bool)
      requires Valid() && t < |state.threads|
      requires if nNow == 0 then state.threads[t].Entering?
               else && state.threads[t].Working? && nNow == |state.threads[t].batch|
                    && fOk == (state.threads[t].startOk && AllTrue(state.threads[t].batch))
      modifies this
      ensures Valid() && Enabled(old(state), Locked(t)) && state == Next(old(state), Locked(t)).0
      ensures t < |state.threads| && Does(old(state), state, t, r)
      ensures notifyMaster <==> nNow > 0 && t != 0 && nTodo == 0
      ensures notifyMaster && old(state.threads != [] && state.threads[0].Waiting?) ==> state.threads != [] && state.threads[0] == Waiting(true)
      ensures notifyQuit <==> r.Exit? && nTotal == 0
    {
      hide Inv, Next, Settled, Does, AllTrue;
      StepSettles(state, t);
      if nNow > 0 && t != 0 && Arrived(state, t).nTodo == 0 && state.threads[0].Waiting? { MasterSignalled(state, t); }
      notifyMaster := false;
      if nNow != 0 {
        fAllOk := fAllOk && fOk;
        nTodo := nTodo - nNow;
        if nTodo == 0 && t != 0 { notifyMaster := true; }
      } else {
        nTotal := nTotal + 1;
      }
      assert View() == Arrived(state, t);
      r, notifyQuit := Settle(t == 0);
      state := Next(state, Locked(t)).0;
    }

    /** Thread t wakes up holding the lock, signalled or not. */
    method WakeUp(t: nat) returns (r: Outcome, notifyQuit: bool)
      requires Valid() && t < |state.threads| && state.threads[t].Waiting?
      modifies this
      ensures Valid() && Enabled(old(state), Wake(t)) && state == Next(old(state), Wake(t)).0
      ensures t < |state.threads| && Does(old(state), state, t, r)
      ensures notifyQuit <==> r.Exit? && nTotal == 0
    {
      StepSettles(state, t);
      hide Inv, Next, Settled, Does;
      nIdle := nIdle - 1;
      assert View() == Arrived(state, t);
      r, notifyQuit := Settle(t == 0);
      state := Next(state, Wake(t)).0;
    }

    /** Append checks. One check signals one worker, several signal all; woken are the sleeping workers that the
        signal reaches. */
    method Add(checks: seq<bool>, ghost woken: set<nat>) returns (notifyOne: bool, notifyAll: bool)
      requires Valid() && state.threads[0].Outside? && MayWake(state, checks, woken)
      modifies this
      ensures Valid() && Enabled(old(state), AddChecks(checks, woken)) && state == Next(old(state), AddChecks(checks, woken)).0
      ensures state.added == old(state.added) + checks
      ensures (notifyOne <==> |checks| == 1) && (notifyAll <==> |checks| > 1)
      ensures notifyAll ==> forall u :: 0 < u < |state.threads| && state.threads[u].Waiting? ==> state.threads[u].notified
    {
      for i := 0 to |checks|
        modifies this`queue
        invariant queue == old(queue) + checks[..i]
      {
        queue := queue + [checks[i]];
      }
      assert checks[..|checks|] == checks;
      nTodo := nTodo + |checks|;
      notifyOne, notifyAll := |checks| == 1, |checks| > 1;
      StepInv(state, AddChecks(checks, woken));
      hide Inv;
      state := Next(state, AddChecks(checks, woken)).0;
    }

    /** Raise the quit flag and signal every sleeping worker. */
    method Quit()
      requires Valid()
      modifies this
      ensures Valid() && fQuit && state == Next(old(state), Action.Quit).0
      ensures forall u :: 0 < u < |state.threads| && state.threads[u].Waiting? ==> state.threads[u].notified
    {
      fQuit := true;
      StepInv(state, Action.Quit);
      hide Inv;
      state := Next(state, Action.Quit).0;
    }
  }
}

/** Synchronized checkpoints: which checkpoints are taken, which blocks pass the check against the
    current one, and that the current checkpoint stays on the main chain over every run. */
module Checkpoints {
  import opened Basics
  import opened Ledger
  import opened Supply
  import opened BlockTree
  import opened Validation
  import opened Replay
  import opened Switching
  import opened ChainState

  // ------------------------------------------------------------ the protocol, as a state machine

  /** What the protocol sees of a node. */
  datatype View = View(index: Index, genesis: Hash, best: Hash, sync: Hash)

  /** The full check of a block against the sync-checkpoint: above it, a descendant; at its height, the
      checkpoint itself; below it, an already known block. */
  ghost predicate SyncOk(index: Index, genesis: Hash, sync: Hash, block: Hash, prev: Hash)
    requires TreeOk(index, genesis) && sync in index && prev in index
  {
    var n := index[prev].height + 1;
    && (n > index[sync].height ==> Ancestor(index, genesis, sync, prev))
    && (n == index[sync].height ==> block == sync)
    && (n < index[sync].height ==> block in index)
  }

  /** For a new block the check asks that its parent is the checkpoint or descends from it. */
  lemma SyncOkExactly(index: Index, genesis: Hash, sync: Hash, block: Hash, prev: Hash)
    requires TreeOk(index, genesis) && sync in index && prev in index && block !in index
    ensures SyncOk(index, genesis, sync, block, prev) <==> Ancestor(index, genesis, sync, prev)
  {
    PathShape(index, genesis, prev);
    if Ancestor(index, genesis, sync, prev) { AncestorAt(index, genesis, sync, prev); }
  }

  ghost predicate StrictlyDescends(index: Index, genesis: Hash, h: Hash, sync: Hash)
    requires TreeOk(index, genesis) && sync in index && h in index
  {
    Ancestor(index, genesis, sync, h) && h != sync
  }

  ghost predicate Wf(v: View) {
    TreeOk(v.index, v.genesis) && v.best in v.index && v.sync in v.index
  }

  /** The current sync-checkpoint is on the main chain. */
  ghost predicate Safe(v: View) {
    Wf(v) && Ancestor(v.index, v.genesis, v.sync, v.best)
  }

  /** A new block passes the check and is indexed; it may become the best block. */
  ghost predicate AcceptStep(v: View, v': View, b: Hash) {
    && Wf(v) && Wf(v') && b !in v.index && b in v'.index && v'.index[b].prev.Some?
    && var prev := v'.index[b].prev.value;
       && prev in v.index && SyncOk(v.index, v.genesis, v.sync, b, prev)
       && v' == View(v.index[b := v'.index[b]], v.genesis, v'.best, v.sync)
       && (v'.best == v.best || v'.best == b)
  }

  /** A strict descendant becomes the sync-checkpoint; the best block is then one of its descendants, or it became
      the best block itself. */
  ghost predicate AdvanceStep(v: View, v': View) {
    && Wf(v) && Wf(v')
    && v' == View(v.index, v.genesis, v'.best, v'.sync)
    && StrictlyDescends(v.index, v.genesis, v'.sync, v.sync)
    && (v'.best == v'.sync || (v'.best == v.best && Ancestor(v.index, v.genesis, v'.sync, v.best)))
  }

  ghost predicate Step(v: View, v': View) {
    v == v' || AdvanceStep(v, v') || exists b :: AcceptStep(v, v', b)
  }

  /** The best block is h, or stays the one that h is an ancestor of. */
  ghost predicate OnBranch(index: Index, genesis: Hash, best: Hash, best': Hash, h: Hash) {
    && TreeOk(index, genesis) && best in index && best' in index && Ancestor(index, genesis, h, best')
    && (best' == h || best' == best)
  }

  lemma Advances(v: View, best': Hash, h: Hash)
    requires Wf(v) && h in v.index && StrictlyDescends(v.index, v.genesis, h, v.sync) && OnBranch(v.index, v.genesis, v.best, best', h)
    ensures Step(v, View(v.index, v.genesis, best', h)) && Ancestor(v.index, v.genesis, h, best')
  {
    assert AdvanceStep(v, View(v.index, v.genesis, best', h));
  }

  /** A block that passes the check descends from the checkpoint; the two lower cases only admit blocks
      that are known already. */
  lemma AcceptedDescends(v: View, v': View, b: Hash)
    requires AcceptStep(v, v', b)
    ensures Ancestor(v'.index, v'.genesis, v.sync, b)
  {
    var prev := v'.index[b].prev.value;
    PathExtend(v.index, v.genesis, b, v'.index[b], prev);
  }

  lemma StepSafe(v: View, v': View)
    requires Safe(v) && Step(v, v')
    ensures Safe(v')
    ensures v.index.Keys <= v'.index.Keys && v.genesis == v'.genesis
    ensures v.sync == v'.sync || StrictlyDescends(v'.index, v'.genesis, v'.sync, v.sync)
  {
    if v != v' && !AdvanceStep(v, v') {
      var b :| AcceptStep(v, v', b);
      AcceptedDescends(v, v', b);
      PathExtend(v.index, v.genesis, b, v'.index[b], v.best);
    } else if AdvanceStep(v, v') {
      PathShape(v.index, v.genesis, v'.sync);
    }
  }

  /** An ancestor stays one when the tree grows. */
  lemma StepKeepsAncestors(v: View, v': View, a: Hash, h: Hash)
    requires Safe(v) && Step(v, v') && h in v.index && Ancestor(v.index, v.genesis, a, h)
    ensures Wf(v') && h in v'.index && Ancestor(v'.index, v'.genesis, a, h)
  {
    StepSafe(v, v');
    if v.index != v'.index {
      var b :| AcceptStep(v, v', b);
      PathExtend(v.index, v.genesis, b, v'.index[b], h);
    }
  }

  ghost predicate IsRun(run: seq<View>) {
    run != [] && Safe(run[0]) && forall i :: 0 <= i < |run| - 1 ==> Step(run[i], run[i + 1])
  }

  /** Over every run, each later checkpoint is an earlier one or strictly descends from it, and every
      checkpoint is on the main chain of its state. */
  lemma {:induction false} RunSafe(run: seq<View>, i: nat, j: nat)
    requires IsRun(run) && i <= j < |run|
    ensures Safe(run[i]) && Safe(run[j])
    ensures Ancestor(run[j].index, run[j].genesis, run[i].sync, run[j].sync)
    decreases j
  {
    PathFrom(run, j);
    if i == j {
      PathFrom(run, i);
      PathShape(run[i].index, run[i].genesis, run[i].sync);
    } else {
      RunSafe(run, i, j - 1);
      var v, v' := run[j - 1], run[j];
      assert Step(v, v');
      StepSafe(v, v');
      StepKeepsAncestors(v, v', run[i].sync, v.sync);
      if v.sync != v'.sync {
        AncestorTransitive(v'.index, v'.genesis, run[i].sync, v.sync, v'.sync);
      }
    }
  }

  lemma {:induction false} PathFrom(run: seq<View>, j: nat)
    requires IsRun(run) && j < |run|
    ensures Safe(run[j])
  {
    if j > 0 {
      PathFrom(run, j - 1);
      assert Step(run[j - 1], run[j]);
      StepSafe(run[j - 1], run[j]);
    }
  }

  // ------------------------------------------------------------ the node as a value

  /** What the node's operations read and change: the chain, the checkpoint and the pending one. */
  datatype Desk = Desk(s: Sight, sync: Hash, pending: Option<Hash>)

  ghost predicate DeskOk(genesis: Hash, d: Desk) { SightOk(genesis, d.s) && d.sync in d.s.index }

  ghost function ViewOf(genesis: Hash, d: Desk): View { View(d.s.index, genesis, d.s.best, d.sync) }

  predicate Flagged(s: Sight, h: Hash) { h in s.links || h == s.best }

  /** Switch to h unless it is flagged as being on the main chain. */
  ghost function Carried(rules: Rules, genesis: Hash, s: Sight, h: Hash): (bool, Sight)
    requires TreeOk(s.index, genesis) && s.best in s.index && h in s.index
  {
    if Flagged(s, h) then (true, s) else Switched(rules, genesis, s, h)
  }

  lemma CarriedOk(rules: Rules, genesis: Hash, s: Sight, h: Hash)
    requires TreeOk(s.index, genesis) && s.best in s.index && h in s.index
    ensures Carried(rules, genesis, s, h).0 <==> h in s.links || h == s.best || Switched(rules, genesis, s, h).0
  {
    hide Switched, TreeOk;
  }

  /** A checkpoint message: an unknown block is left pending, a strict descendant is taken if the chain moves there. */
  ghost function Told(rules: Rules, genesis: Hash, d: Desk, h: Hash): Desk
    requires DeskOk(genesis, d)
  {
    if h !in d.s.index then d.(pending := Some(h))
    else if !StrictlyDescends(d.s.index, genesis, h, d.sync) then d
    else
      var (ok, s') := Carried(rules, genesis, d.s, h);
      if ok then Desk(s', h, None) else d
  }

  /** The pending checkpoint, once its block is known. */
  ghost function TakenUp(rules: Rules, genesis: Hash, d: Desk): Desk
    requires DeskOk(genesis, d)
  {
    if d.pending.None? || d.pending.value !in d.s.index then d
    else if !StrictlyDescends(d.s.index, genesis, d.pending.value, d.sync) then d.(pending := None)
    else
      var (ok, s') := Carried(rules, genesis, d.s, d.pending.value);
      if ok then Desk(s', d.pending.value, None) else d
  }

  /** A block arrives, with the rules in force for it and for a pending checkpoint after it, or a message. */
  datatype Event =
    | NewBlock(rules: Rules, block: Block, trust: nat, checksOk: bool, later: Rules)
    | Message(rules: Rules, h: Hash)

  /** The block is new, its parent is known, it passes the other tests and the check against the checkpoint. */
  ghost predicate Admitted(genesis: Hash, d: Desk, block: Block, checksOk: bool)
    requires DeskOk(genesis, d)
  {
    block.hash !in d.s.index && block.prevHash in d.s.index && checksOk
    && SyncOk(d.s.index, genesis, d.sync, block.hash, block.prevHash)
  }

  /** After the block is indexed, before a pending checkpoint is looked at. */
  ghost function Halfway(genesis: Hash, d: Desk, e: Event): (m: Desk)
    requires DeskOk(genesis, d)
    ensures DeskOk(genesis, m)
  {
    if e.NewBlock? && Admitted(genesis, d, e.block, e.checksOk) then
      AddedOk(e.rules, genesis, d.s, e.block, e.trust);
      AddedShape(e.rules, genesis, d.s, e.block, e.trust);
      d.(s := Added(e.rules, genesis, d.s, e.block, e.trust).1)
    else d
  }

  ghost function Handled(genesis: Hash, d: Desk, e: Event): Desk
    requires DeskOk(genesis, d)
  {
    match e
    case NewBlock(rules, block, trust, checksOk, later) =>
      if Admitted(genesis, d, block, checksOk) && Added(rules, genesis, d.s, block, trust).0
      then TakenUp(later, genesis, Halfway(genesis, d, e)) else Halfway(genesis, d, e)
    case Message(rules, h) => Told(rules, genesis, d, h)
  }

  // ------------------------------------------------------------ which runs stay in sync

  /** If the switch to tip succeeds, its postponed blocks connect. */
  ghost predicate Joins(rules: Rules, genesis: Hash, s: Sight, tip: Hash)
    requires TreeOk(s.index, genesis) && s.best in s.index && tip in s.index
  {
    Switches(rules, s.index, genesis, s.tx, s.best, tip) ==> PostponedConnect(rules, s.index, genesis, s.tx, s.best, tip)
  }

  ghost predicate AddJoins(rules: Rules, genesis: Hash, s: Sight, block: Block, trust: nat)
    requires TreeOk(s.index, genesis) && s.best in s.index && block.prevHash in s.index && block.hash !in s.index
  {
    ChildKeepsTree(s.index, genesis, block, trust);
    var s' := s.(index := s.index[block.hash := ChildOf(s.index, block, trust)]);
    s'.index[block.hash].trust > s'.index[s.best].trust ==> Joins(rules, genesis, s', block.hash)
  }

  /** If h is taken as the checkpoint, and the chain is switched for it, the postponed blocks connect. */
  ghost predicate MoveJoins(rules: Rules, genesis: Hash, d: Desk, h: Hash)
    requires DeskOk(genesis, d)
  {
    h in d.s.index && StrictlyDescends(d.s.index, genesis, h, d.sync) && !Flagged(d.s, h) ==> Joins(rules, genesis, d.s, h)
  }

  /** Every switch the event causes connects its postponed blocks. */
  ghost predicate Reconnects(genesis: Hash, d: Desk, e: Event)
    requires DeskOk(genesis, d)
  {
    match e
    case NewBlock(rules, block, trust, checksOk, later) =>
      Admitted(genesis, d, block, checksOk) ==>
        && AddJoins(rules, genesis, d.s, block, trust)
        && (Added(rules, genesis, d.s, block, trust).0 && d.pending.Some? ==>
              MoveJoins(later, genesis, Halfway(genesis, d, e), d.pending.value))
    case Message(rules, h) => MoveJoins(rules, genesis, d, h)
  }

  predicate InStep(s: Sight) { s.dbBest == s.best }

  /** Halfway through the event and at its end the database is at the best block. */
  ghost predicate Steady(genesis: Hash, d: Desk, e: Event)
    requires DeskOk(genesis, d)
  {
    InStep(Halfway(genesis, d, e).s) && InStep(Handled(genesis, d, e).s)
  }

  /** Links and database are at the best block. */
  ghost predicate Abreast(genesis: Hash, s: Sight) {
    SightOk(genesis, s) && InStep(s) && s.links == Links(Path(s.index, genesis, s.best))
  }

  lemma SwitchLevel(rules: Rules, genesis: Hash, s: Sight, tip: Hash)
    requires Abreast(genesis, s) && tip in s.index
    ensures var s' := Switched(rules, genesis, s, tip).1;
            (Joins(rules, genesis, s, tip) <==> InStep(s')) && (InStep(s') ==> Abreast(genesis, s'))
  {
    SwitchedOk(rules, genesis, s, tip);
    SwitchedShape(rules, genesis, s, tip);
    SwitchedLinks(rules, genesis, s, tip);
    hide Switched, PostponedConnect, Switches, FlagsOk, TreeOk, Path, Links, Ancestor;
  }

  lemma AddLevel(rules: Rules, genesis: Hash, s: Sight, block: Block, trust: nat)
    requires Abreast(genesis, s) && block.prevHash in s.index && block.hash !in s.index
    ensures var s' := Added(rules, genesis, s, block, trust).1;
            (AddJoins(rules, genesis, s, block, trust) <==> InStep(s')) && (InStep(s') ==> Abreast(genesis, s'))
  {
    var s' := s.(index := s.index[block.hash := ChildOf(s.index, block, trust)]);
    ChildKeepsTree(s.index, genesis, block, trust);
    ChildKeepsPaths(s.index, genesis, block, trust, s.links, s.best, s.dbBest);
    assert Abreast(genesis, s');
    hide Switched, Joins, Abreast, TreeOk, FlagsOk, Path, Links;
    if s'.index[block.hash].trust > s'.index[s.best].trust { SwitchLevel(rules, genesis, s', block.hash); }
  }

  lemma MoveLevel(rules: Rules, genesis: Hash, d: Desk, h: Hash)
    requires DeskOk(genesis, d) && Abreast(genesis, d.s) && h in d.s.index && StrictlyDescends(d.s.index, genesis, h, d.sync)
    ensures var s' := Carried(rules, genesis, d.s, h).1;
            (MoveJoins(rules, genesis, d, h) <==> InStep(s')) && (InStep(s') ==> Abreast(genesis, s'))
    ensures !Carried(rules, genesis, d.s, h).0 ==> Carried(rules, genesis, d.s, h).1 == d.s
  {
    hide Switched, Joins, Path, Links, TreeOk, FlagsOk;
    SwitchedShape(rules, genesis, d.s, h);
    SwitchLevel(rules, genesis, d.s, h);
  }

  /** From a node in sync, an event keeps it in sync if and only if every switch it causes reconnects. */
  lemma EventLevel(genesis: Hash, d: Desk, e: Event)
    requires DeskOk(genesis, d) && Abreast(genesis, d.s)
    ensures Reconnects(genesis, d, e) <==> Steady(genesis, d, e)
    ensures Reconnects(genesis, d, e) ==> Abreast(genesis, Handled(genesis, d, e).s)
  {
    hide Switched, Added, Joins, AddJoins, MoveJoins, Abreast, TreeOk, FlagsOk, Path, Links, SyncOk, StrictlyDescends, Carried;
    match e
    case NewBlock(rules, block, trust, checksOk, later) =>
      if Admitted(genesis, d, block, checksOk) {
        AddLevel(rules, genesis, d.s, block, trust);
        var m := Halfway(genesis, d, e);
        if AddJoins(rules, genesis, d.s, block, trust) && m.pending.Some? { TakeLevel(later, genesis, m, m.pending.value); }
      } else {
        InLevel(genesis, d.s);
      }
    case Message(rules, h) => TakeLevel(rules, genesis, d, h);
  }

  lemma InLevel(genesis: Hash, s: Sight)
    requires Abreast(genesis, s)
    ensures InStep(s)
  {
  }

  /** Taking h as the checkpoint, or not. */
  lemma TakeLevel(rules: Rules, genesis: Hash, d: Desk, h: Hash)
    requires DeskOk(genesis, d) && Abreast(genesis, d.s)
    ensures h in d.s.index && StrictlyDescends(d.s.index, genesis, h, d.sync) ==>
              var (ok, s') := Carried(rules, genesis, d.s, h);
              && (MoveJoins(rules, genesis, d, h) <==> InStep(s')) && (InStep(s') ==> Abreast(genesis, s'))
              && (!ok ==> s' == d.s)
    ensures !(h in d.s.index && StrictlyDescends(d.s.index, genesis, h, d.sync)) ==> MoveJoins(rules, genesis, d, h)
    ensures InStep(d.s)
  {
    hide Carried, Joins, Path, Links, TreeOk, FlagsOk, StrictlyDescends;
    if h in d.s.index && StrictlyDescends(d.s.index, genesis, h, d.sync) { MoveLevel(rules, genesis, d, h); }
  }

  // ------------------------------------------------------------ the code

  /** Follow pprev down to a height. */
  method TraceBack(index: Index, genesis: Hash, from: Hash, height: nat) returns (at: Hash)
    requires TreeOk(index, genesis) && from in index && height <= index[from].height
    ensures at in index && index[at].height == height
    ensures forall a :: a in index && index[a].height == height ==> (Ancestor(index, genesis, a, from) <==> a == at)
  {
    at := from;
    PathShape(index, genesis, from);
    while index[at].height > height
      invariant at in index && index[at].height >= height && Ancestor(index, genesis, at, from)
      decreases index[at].height
    {
      AncestorAt(index, genesis, at, from);
      PathParent(index, genesis, from, index[at].height);
      at := index[at].prev.value;
    }
  }

  class Node {
    const chain: Chain
    var hashSync: Hash
    var hashPending: Option<Hash>
    var hashInvalid: Option<Hash>
    var syncHeight: nat

    /** A node on a chain that starts with its sync-checkpoint at the genesis block. */
    constructor (c: Chain)
      requires c.Sound()
      ensures Valid() && chain == c && hashSync == c.genesis && hashPending.None?
    {
      chain, hashSync, syncHeight := c, c.genesis, 0;
      hashPending, hashInvalid := None, None;
      new;
      PathShape(c.index, c.genesis, c.best);
    }

    /** In every state of the chain, in sync or not, the checkpoint is on the path to the best block. */
    ghost predicate Valid()
      reads this, chain
    {
      && chain.Sound()
      && hashSync in chain.index && syncHeight == chain.index[hashSync].height
      && Ancestor(chain.index, chain.genesis, hashSync, chain.best)
    }

    ghost function Seen(): View
      reads this, chain
    {
      View(chain.index, chain.genesis, chain.best, hashSync)
    }

    ghost function Now(): Desk
      reads this, chain
    {
      Desk(chain.Now(), hashSync, hashPending)
    }

    /** Only a strict descendant of the current checkpoint validates; a block that is neither a descendant
        nor an ancestor is recorded as invalid. */
    method ValidateSyncCheckpoint(h: Hash) returns (ok: bool)
      requires TreeOk(chain.index, chain.genesis)
      modifies this`hashInvalid
      ensures ok <==> && hashSync in chain.index && h in chain.index
                      && StrictlyDescends(chain.index, chain.genesis, h, hashSync)
      ensures hashInvalid == if && hashSync in chain.index && h in chain.index
                                && !Ancestor(chain.index, chain.genesis, h, hashSync)
                                && !Ancestor(chain.index, chain.genesis, hashSync, h)
                             then Some(h) else old(hashInvalid)
    {
      var index := chain.index;
      if hashSync !in index || h !in index { return false; }
      PathShape(index, chain.genesis, h);
      PathShape(index, chain.genesis, hashSync);
      if index[h].height <= index[hashSync].height {
        var at := TraceBack(index, chain.genesis, hashSync, index[h].height);
        if at != h { hashInvalid := Some(h); }
        return false;
      }
      var at := TraceBack(index, chain.genesis, h, index[hashSync].height);
      if at != hashSync {
        hashInvalid := Some(h);
        return false;
      }
      return true;
    }

    /** The check of AcceptBlock, with the short cut taken when both blocks are on the main chain. */
    method CheckSync(block: Hash, prev: Hash) returns (ok: bool)
      requires chain.Sound() && hashSync in chain.index && prev in chain.index
      ensures ok <==> SyncOk(chain.index, chain.genesis, hashSync, block, prev)
    {
      var index := chain.index;
      var height := index[prev].height + 1;
      if height > index[hashSync].height {
        if !(chain.IsInMainChain(hashSync) && chain.IsInMainChain(prev)) {
          var at := TraceBack(index, chain.genesis, prev, index[hashSync].height);
          if at != hashSync { return false; }
        } else {
          chain.InMainChainIsOnPath(hashSync);
          chain.InMainChainIsOnPath(prev);
          AncestorsLinear(index, chain.genesis, hashSync, prev, chain.best);
        }
      }
      if height == index[hashSync].height && block != hashSync { return false; }
      if height < index[hashSync].height && block !in index { return false; }
      return true;
    }

    /** Switch the chain to h unless it is flagged as being on the main chain. */
    method MoveTo(rules: Rules, h: Hash) returns (ok: bool)
      requires chain.Sound() && h in chain.index
      modifies chain
      ensures chain.Sound() && chain.index == old(chain.index)
      ensures (ok, chain.Now()) == Carried(rules, chain.genesis, old(chain.Now()), h)
      ensures old(chain.Valid()) && (old(chain.InSync()) || chain.Now() == old(chain.Now())) ==> chain.Valid()
      ensures if ok then OnBranch(chain.index, chain.genesis, old(chain.best), chain.best, h) else chain.Now() == old(chain.Now())
    {
      chain.InMainChainIsOnPath(h);
      OwnAncestor(chain.index, chain.genesis, h);
      SwitchedShape(rules, chain.genesis, chain.Now(), h);
      hide At, ExactlyAt, FreshSwitch, Switched, PostponedConnect, Links, TreeOk, Path, FlagsOk, Ancestor, Total;
      ok := true;
      if !chain.IsInMainChain(h) { ok := chain.SetBestChain(rules, h); }
    }

    /** Make a validated block the sync-checkpoint, switching the chain to it first if it is not flagged as being on
        the main chain. */
    method Adopt(rules: Rules, h: Hash) returns (ok: bool)
      requires Valid() && h in chain.index && StrictlyDescends(chain.index, chain.genesis, h, hashSync)
      modifies this`hashSync, this`syncHeight, this`hashInvalid, chain
      ensures Valid() && chain.index == old(chain.index) && Step(old(Seen()), Seen())
      ensures (ok, chain.Now()) == Carried(rules, chain.genesis, old(chain.Now()), h)
      ensures old(chain.Valid()) && (old(chain.InSync()) || chain.Now() == old(chain.Now())) ==> chain.Valid()
      ensures if ok then hashSync == h else hashSync == old(hashSync) && hashInvalid == Some(h) && chain.Now() == old(chain.Now())
    {
      ghost var before := Seen();
      hide Carried, TreeOk, Path, FlagsOk, Ancestor, StrictlyDescends, AdvanceStep, AcceptStep, OnBranch;
      ok := MoveTo(rules, h);
      if !ok {
        hashInvalid := Some(h);
        return;
      }
      Advances(before, chain.best, h);
      hashSync := h;
      syncHeight := chain.index[h].height;
    }

    /** A checkpoint message whose signature has been checked. */
    method ProcessSyncCheckpoint(rules: Rules, h: Hash) returns (ok: bool)
      requires Valid()
      modifies this, chain
      ensures Valid() && chain.index == old(chain.index) && Step(old(Seen()), Seen())
      ensures Now() == Told(rules, chain.genesis, old(Now()), h)
      ensures ok <==> && h in chain.index && StrictlyDescends(chain.index, chain.genesis, h, old(hashSync))
                      && Carried(rules, chain.genesis, old(chain.Now()), h).0
      ensures h !in old(chain.index) ==> hashPending == Some(h) && hashSync == old(hashSync) && hashInvalid == old(hashInvalid) && unchanged(chain)
      ensures ok ==> hashSync == h && hashPending.None? && Ancestor(chain.index, chain.genesis, h, chain.best)
      ensures !ok ==> hashSync == old(hashSync) && chain.Now() == old(chain.Now())
      ensures !ok && h in chain.index ==> hashPending == old(hashPending)
      ensures old(chain.Valid()) && (old(chain.InSync()) || chain.Now() == old(chain.Now())) ==> chain.Valid()
    {
      hide Carried, At, Links, TreeOk, Path, FlagsOk, Ancestor, AdvanceStep, AcceptStep, StrictlyDescends;
      if h !in chain.index {
        hashPending := Some(h);
        return false;
      }
      ok := ValidateSyncCheckpoint(h);
      if !ok { return; }
      ok := Adopt(rules, h);
      if ok { hashPending := None; }
    }

    /** Retry the pending checkpoint once its block is known. */
    method AcceptPendingSyncCheckpoint(rules: Rules) returns (ok: bool)
      requires Valid()
      modifies this, chain
      ensures Valid() && chain.index == old(chain.index) && Step(old(Seen()), Seen())
      ensures Now() == TakenUp(rules, chain.genesis, old(Now()))
      ensures ok <==> old(hashPending) == Some(hashSync) && hashSync != old(hashSync)
      ensures ok ==> hashPending.None?
      ensures !ok ==> hashSync == old(hashSync) && chain.Now() == old(chain.Now())
      ensures old(hashPending.Some? && hashPending.value in chain.index) ==>
                var h := old(hashPending.value);
                && (ok <==> && Ancestor(chain.index, chain.genesis, old(hashSync), h) && h != old(hashSync)
                            && (old(chain.IsInMainChain(h)) || Switched(rules, chain.genesis, old(chain.Now()), h).0))
                && (!ok ==> (hashPending.Some? <==> Ancestor(chain.index, chain.genesis, old(hashSync), h) && h != old(hashSync)))
                && (hashPending.Some? ==> hashPending == Some(h))
      ensures old(hashPending.Some? && hashPending.value !in chain.index) ==> hashPending == old(hashPending)
      ensures old(hashPending).None? ==> unchanged(chain)
      ensures old(chain.Valid()) && (old(chain.InSync()) || chain.Now() == old(chain.Now())) ==> chain.Valid()
    {
      hide Carried, At, Links, TreeOk, Path, FlagsOk, Ancestor, AdvanceStep, AcceptStep;
      if hashPending.None? || hashPending.value !in chain.index { return false; }
      var h := hashPending.value;
      CarriedOk(rules, chain.genesis, chain.Now(), h);
      ok := ValidateSyncCheckpoint(h);
      if !ok {
        hashPending := None;
        return;
      }
      ok := Adopt(rules, h);
      if ok { hashPending := None; }
    }

    lemma DeskIsOk()
      requires Valid()
      ensures DeskOk(chain.genesis, Now())
    {
    }

    lemma StartsLevel()
      requires Valid() && chain.Valid() && chain.InSync()
      ensures Abreast(chain.genesis, Now().s)
    {
    }

    ghost predicate Admits(block: Block, checksOk: bool)
      requires Valid()
      reads this, chain
    {
      Admitted(chain.genesis, Now(), block, checksOk)
    }

    /** Accept a block, in the mode that enforces checkpoints: checksOk stands for the tests that do not
        concern them. At most two steps: the block is indexed, and a pending checkpoint is taken up. */
    method AcceptBlock(rules: Rules, block: Block, trust: nat, checksOk: bool, later: Rules) returns (ok: bool)
      requires Valid()
      modifies this, chain
      ensures Valid()
      ensures var d, e := old(Now()), NewBlock(rules, block, trust, checksOk, later);
              var mid := Halfway(chain.genesis, d, e);
              && Step(old(Seen()), ViewOf(chain.genesis, mid)) && Step(ViewOf(chain.genesis, mid), Seen())
              && Now() == Handled(chain.genesis, d, e)
              && (old(chain.Valid() && chain.InSync()) && (InStep(mid.s) || chain.Now() == mid.s) ==> chain.Valid())
      ensures !old(Admits(block, checksOk)) ==> unchanged(this) && unchanged(chain)
      ensures ok <==> old(Admits(block, checksOk)) && Added(rules, chain.genesis, old(chain.Now()), block, trust).0
      ensures old(Admits(block, checksOk)) ==>
                block.hash in chain.index && Ancestor(chain.index, chain.genesis, old(hashSync), block.hash)
      ensures old(hashPending.None? && Admits(block, checksOk) && chain.Valid() && chain.InSync()) ==>
                (Total(chain.db.tx) == chain.moneySupply[chain.best] <==> chain.InSync() || Total(chain.db.tx) == 0)
      ensures old(hashPending.None? && Admits(block, checksOk) && block.prevHash == chain.best) && chain.best == block.hash ==>
                && Total(chain.db.tx) - chain.moneySupply[chain.best] == old(Total(chain.db.tx) - chain.moneySupply[chain.best])
                && (old(chain.Valid()) ==> (chain.Valid() <==> old(chain.InSync())))
    {
      hide At, ExactlyAt, Switched, Switches, Added, Links, SyncOk, Path, TreeOk, FlagsOk, FreshSwitch, TakenUp, Total, Ancestor, AcceptStep, AdvanceStep;
      if block.hash in chain.index || block.prevHash !in chain.index || !checksOk { return false; }
      var satisfies := CheckSync(block.hash, block.prevHash);
      if !satisfies { return false; }
      AddedDescends(rules, chain.genesis, Now(), block, trust);
      ok := chain.AddToBlockIndex(rules, block, trust);
      if !ok { return; }
      NothingPending(later, chain.genesis, Now());
      var accepted := AcceptPendingSyncCheckpoint(later);
    }
  }

  /** An admitted block is indexed in one step of the protocol, as a descendant of the checkpoint. */
  lemma AddedDescends(rules: Rules, genesis: Hash, d: Desk, block: Block, trust: nat)
    requires DeskOk(genesis, d) && Admitted(genesis, d, block, true)
    ensures var s := Added(rules, genesis, d.s, block, trust).1;
            && TreeOk(s.index, genesis) && block.hash in s.index && d.sync in s.index && s.index[d.sync] == d.s.index[d.sync]
            && Ancestor(s.index, genesis, d.sync, block.hash)
            && (Ancestor(d.s.index, genesis, d.sync, d.s.best) ==>
                  Step(ViewOf(genesis, d), ViewOf(genesis, d.(s := s))) && s.best in s.index && Ancestor(s.index, genesis, d.sync, s.best))
  {
    AddedOk(rules, genesis, d.s, block, trust);
    AddedShape(rules, genesis, d.s, block, trust);
    var d' := d.(s := Added(rules, genesis, d.s, block, trust).1);
    hide Added, FlagsOk, SyncOk, Ancestor;
    var v, v' := ViewOf(genesis, d), ViewOf(genesis, d');
    assert AcceptStep(v, v', block.hash);
    AcceptedDescends(v, v', block.hash);
    if Safe(v) { StepSafe(v, v'); }
  }

  lemma NothingPending(rules: Rules, genesis: Hash, d: Desk)
    requires DeskOk(genesis, d)
    ensures d.pending.None? ==> TakenUp(rules, genesis, d) == d
    ensures TakenUp(rules, genesis, d).s.index == d.s.index
  {
    if d.pending.Some? && d.pending.value in d.s.index { SwitchedShape(rules, genesis, d.s, d.pending.value); }
  }

  // ------------------------------------------------------------ whole runs of the code

  /** The states a node goes through, one more than there are events. */
  ghost predicate Trace(genesis: Hash, desks: seq<Desk>, events: seq<Event>) {
    && |desks| == |events| + 1
    && forall i :: 0 <= i < |events| ==> DeskOk(genesis, desks[i]) && desks[i + 1] == Handled(genesis, desks[i], events[i])
  }

  /** Every switch of the run connects its postponed blocks. */
  ghost predicate AllReconnect(genesis: Hash, desks: seq<Desk>, events: seq<Event>)
    requires Trace(genesis, desks, events)
  {
    forall i :: 0 <= i < |events| ==> Reconnects(genesis, desks[i], events[i])
  }

  /** All along the run, halfway through events too, the database is at the best block. */
  ghost predicate AlwaysInSync(genesis: Hash, desks: seq<Desk>, events: seq<Event>)
    requires Trace(genesis, desks, events)
  {
    forall i :: 0 <= i < |events| ==> Steady(genesis, desks[i], events[i])
  }

  /** A run that starts in sync stays in sync if and only if all its switches reconnect. */
  lemma {:induction false} RunLevel(genesis: Hash, desks: seq<Desk>, events: seq<Event>)
    requires Trace(genesis, desks, events) && Abreast(genesis, desks[0].s)
    ensures AllReconnect(genesis, desks, events) <==> AlwaysInSync(genesis, desks, events)
    ensures AllReconnect(genesis, desks, events) ==> Abreast(genesis, desks[|events|].s)
  {
    hide Handled, Reconnects, Steady, Abreast, DeskOk;
    if events != [] {
      EventLevel(genesis, desks[0], events[0]);
      if Reconnects(genesis, desks[0], events[0]) {
        RunLevel(genesis, desks[1..], events[1..]);
        assert forall i :: 1 <= i < |events| ==> desks[1..][i - 1] == desks[i] && events[1..][i - 1] == events[i];
      }
    }
  }

  // ------------------------------------------------------------ pending checkpoints are taken up

  /** A checkpoint message for an unknown block, and then that block: if it is admitted and indexed, and is on the main
      chain then or can be switched to, it is the checkpoint and nothing is pending. */
  method MessageThenBlock(node: Node, h: Hash, told: Rules, block: Block, trust: nat, rules: Rules, later: Rules) returns (ok: bool)
    requires node.Valid() && h !in node.chain.index && block.hash == h
    modifies node, node.chain
    ensures node.Valid()
    ensures old(node.Admits(block, true)) ==>
              var (added, s) := Added(rules, node.chain.genesis, old(node.chain.Now()), block, trust);
              && ok == added && h in s.index && SightOk(node.chain.genesis, s)
              && (added && (h in s.links || h == s.best || Switched(later, node.chain.genesis, s, h).0) ==>
                    node.hashSync == h && node.hashPending.None?)
  {
    ghost var genesis, d := node.chain.genesis, node.Now();
    hide Switched, Added, TreeOk, FlagsOk, Step, SyncOk, Total, Ancestor, SightOk, Told, TakenUp, Handled, Halfway;
    node.DeskIsOk();
    TakenWhenKnown(genesis, d, h, told, block, trust, rules, later);
    var heard := node.ProcessSyncCheckpoint(told, h);
    ok := node.AcceptBlock(rules, block, trust, true, later);
  }

  lemma TakenWhenKnown(genesis: Hash, d: Desk, h: Hash, told: Rules, block: Block, trust: nat, rules: Rules, later: Rules)
    requires DeskOk(genesis, d) && h !in d.s.index && block.hash == h
    ensures DeskOk(genesis, Told(told, genesis, d, h)) && Told(told, genesis, d, h) == d.(pending := Some(h))
    ensures Admitted(genesis, d, block, true) ==>
              var (added, s) := Added(rules, genesis, d.s, block, trust);
              && Admitted(genesis, d.(pending := Some(h)), block, true)
              && h in s.index && SightOk(genesis, s)
              && (added && (h in s.links || h == s.best || Switched(later, genesis, s, h).0) ==>
                    var d' := Handled(genesis, d.(pending := Some(h)), NewBlock(rules, block, trust, true, later));
                    d'.sync == h && d'.pending.None?)
  {
    hide Switched, Added, FlagsOk, SyncOk, Ancestor, TreeOk, Carried, AcceptStep;
    if Admitted(genesis, d, block, true) {
      AddedOk(rules, genesis, d.s, block, trust);
      AddedShape(rules, genesis, d.s, block, trust);
      var s := Added(rules, genesis, d.s, block, trust).1;
      AddedDescends(rules, genesis, d, block, trust);
      CarriedOk(later, genesis, s, h);
    }
  }

  // ------------------------------------------------------------ the trust of indexed blocks

  /** Every block of `given` has its parent's trust and the trust it was given. */
  ghost predicate Weighed(index: Index, given: map<Hash, nat>) {
    forall h :: h in given ==>
      h in index && index[h].prev.Some? && index[h].prev.value in index && index[h].trust == index[index[h].prev.value].trust + given[h]
  }

  ghost predicate AllGiven(given: map<Hash, nat>, hs: seq<Hash>) { forall i :: 0 <= i < |hs| ==> hs[i] in given }

  function GivenSum(given: map<Hash, nat>, hs: seq<Hash>): nat
    requires AllGiven(given, hs)
  {
    if hs == [] then 0 else GivenSum(given, hs[..|hs| - 1]) + given[hs[|hs| - 1]]
  }

  /** The trust of a block is that of the genesis block and of what its ancestors and itself were given. */
  lemma {:induction false} TrustIsSum(index: Index, genesis: Hash, given: map<Hash, nat>, h: Hash)
    requires TreeOk(index, genesis) && Weighed(index, given) && h in index
    requires forall x :: x in index && x != genesis ==> x in given
    ensures Path(index, genesis, h) != [] && AllGiven(given, Path(index, genesis, h)[1..])
    ensures index[h].trust == index[genesis].trust + GivenSum(given, Path(index, genesis, h)[1..])
    decreases index[h].height
  {
    PathShape(index, genesis, h);
    if h != genesis {
      var prev := Parent(index, genesis, h);
      TrustIsSum(index, genesis, given, prev);
      var p := Path(index, genesis, prev);
      assert Path(index, genesis, h) == p + [h];
      assert (p + [h])[1..] == p[1..] + [h] && (p[1..] + [h])[..|p[1..]|] == p[1..];
    } else {
      assert Path(index, genesis, h)[1..] == [];
    }
  }

  /** The trust of every indexed block is such a sum. */
  ghost predicate TrustSums(index: Index, genesis: Hash, given: map<Hash, nat>) {
    && TreeOk(index, genesis)
    && forall h :: h in index ==>
         && Path(index, genesis, h) != [] && AllGiven(given, Path(index, genesis, h)[1..])
         && index[h].trust == index[genesis].trust + GivenSum(given, Path(index, genesis, h)[1..])
  }

  lemma AllTrustSums(index: Index, genesis: Hash, given: map<Hash, nat>)
    requires TreeOk(index, genesis) && Weighed(index, given)
    ensures (forall x :: x in index && x != genesis ==> x in given) ==> TrustSums(index, genesis, given)
  {
    hide Weighed, Path, AllGiven, GivenSum;
    if forall x :: x in index && x != genesis ==> x in given {
      forall h | h in index
        ensures Path(index, genesis, h) != [] && AllGiven(given, Path(index, genesis, h)[1..])
        ensures index[h].trust == index[genesis].trust + GivenSum(given, Path(index, genesis, h)[1..])
      {
        TrustIsSum(index, genesis, given, h);
      }
    }
  }

  /** The branch to best has the largest sum of all branches. */
  ghost predicate LargestSum(index: Index, genesis: Hash, given: map<Hash, nat>, best: Hash) {
    && TrustSums(index, genesis, given) && best in index
    && forall h :: h in index ==> GivenSum(given, Path(index, genesis, h)[1..]) <= GivenSum(given, Path(index, genesis, best)[1..])
  }

  /** An event adds at most the block it brings, with the trust it brings. */
  lemma HandledIndex(genesis: Hash, d: Desk, e: Event)
    requires DeskOk(genesis, d)
    ensures var index, index' := d.s.index, Handled(genesis, d, e).s.index;
            if e.NewBlock? && Admitted(genesis, d, e.block, e.checksOk) then
              && e.block.hash !in index && e.block.prevHash in index
              && index'.Keys == index.Keys + {e.block.hash} && (forall h :: h in index ==> index'[h] == index[h])
              && index'[e.block.hash].prev == Some(e.block.prevHash)
              && index'[e.block.hash].trust == index[e.block.prevHash].trust + e.trust
            else index' == index
  {
    hide TreeOk, FlagsOk, Switched, Added, ChildOf, TakenUp, SyncOk, Ancestor;
    match e
    case NewBlock(rules, block, trust, checksOk, later) =>
      if Admitted(genesis, d, block, checksOk) {
        AddedShape(rules, genesis, d.s, block, trust);
        ChildIs(d.s.index, block, trust);
        NothingPending(later, genesis, Halfway(genesis, d, e));
      }
    case Message(rules, h) =>
      if h in d.s.index { SwitchedShape(rules, genesis, d.s, h); }
  }

  /** The trusts the blocks that were admitted brought. */
  ghost function GivenBy(genesis: Hash, desks: seq<Desk>, events: seq<Event>): map<Hash, nat>
    requires Trace(genesis, desks, events)
    decreases |events|
  {
    if events == [] then map[] else
    var n := |events| - 1;
    ShorterTrace(genesis, desks, events);
    var given, e := GivenBy(genesis, desks[..n + 1], events[..n]), events[n];
    if e.NewBlock? && Admitted(genesis, desks[n], e.block, e.checksOk) then given[e.block.hash := e.trust] else given
  }

  lemma ShorterTrace(genesis: Hash, desks: seq<Desk>, events: seq<Event>)
    requires Trace(genesis, desks, events) && events != []
    ensures Trace(genesis, desks[..|events|], events[..|events| - 1]) && DeskOk(genesis, desks[|events| - 1])
  {
    hide Handled, DeskOk;
    var n := |events| - 1;
    assert forall i :: 0 <= i <= n ==> desks[..n + 1][i] == desks[i];
  }

  ghost predicate Brought(events: seq<Event>, h: Hash, trust: nat) {
    exists i :: 0 <= i < |events| && events[i].NewBlock? && events[i].block.hash == h && events[i].trust == trust
  }

  /** Over every run the index grows by exactly the blocks admitted, each with its parent's trust and what it brought. */
  lemma {:induction false} TraceWeighed(genesis: Hash, desks: seq<Desk>, events: seq<Event>)
    requires Trace(genesis, desks, events)
    ensures var index, index', given := desks[0].s.index, desks[|events|].s.index, GivenBy(genesis, desks, events);
            && index'.Keys == index.Keys + given.Keys && index.Keys !! given.Keys
            && (forall h :: h in index ==> index'[h] == index[h])
            && Weighed(index', given) && (forall h :: h in given ==> Brought(events, h, given[h]))
    decreases |events|
  {
    hide Handled, DeskOk, Admitted, Weighed, Brought, Trace, GivenBy;
    if events == [] {
      NoneGiven(genesis, desks);
    } else {
      var n := |events| - 1;
      LastGiven(genesis, desks, events);
      TraceWeighed(genesis, desks[..n + 1], events[..n]);
      var given := GivenBy(genesis, desks[..n + 1], events[..n]);
      StepWeighed(genesis, desks[0].s.index, desks[n], events[n], given);
      BroughtNext(events, given);
    }
  }

  lemma NoneGiven(genesis: Hash, desks: seq<Desk>)
    requires Trace(genesis, desks, [])
    ensures desks != [] && GivenBy(genesis, desks, []) == map[] && Weighed(desks[0].s.index, map[])
  {
  }

  lemma LastGiven(genesis: Hash, desks: seq<Desk>, events: seq<Event>)
    requires Trace(genesis, desks, events) && events != []
    ensures |desks| == |events| + 1
    ensures var n := |events| - 1; var d, e := desks[n], events[n];
            && DeskOk(genesis, d) && desks[n + 1] == Handled(genesis, d, e) && Trace(genesis, desks[..n + 1], events[..n])
            && var given := GivenBy(genesis, desks[..n + 1], events[..n]);
               GivenBy(genesis, desks, events) == if e.NewBlock? && Admitted(genesis, d, e.block, e.checksOk) then given[e.block.hash := e.trust] else given
  {
    hide Handled, DeskOk, Admitted;
    ShorterTrace(genesis, desks, events);
  }

  lemma StepWeighed(genesis: Hash, index0: Index, d: Desk, e: Event, given: map<Hash, nat>)
    requires DeskOk(genesis, d) && Weighed(d.s.index, given)
    requires d.s.index.Keys == index0.Keys + given.Keys && index0.Keys !! given.Keys && forall h :: h in index0 ==> d.s.index[h] == index0[h]
    ensures var index', given' := Handled(genesis, d, e).s.index,
                                  if e.NewBlock? && Admitted(genesis, d, e.block, e.checksOk) then given[e.block.hash := e.trust] else given;
            && index'.Keys == index0.Keys + given'.Keys && index0.Keys !! given'.Keys && (forall h :: h in index0 ==> index'[h] == index0[h])
            && Weighed(index', given')
  {
    hide Handled, DeskOk, Admitted, Weighed;
    HandledIndex(genesis, d, e);
    WeighedNext(d.s.index, Handled(genesis, d, e).s.index, given, e);
  }

  lemma WeighedNext(index: Index, index': Index, given: map<Hash, nat>, e: Event)
    requires Weighed(index, given) && (forall h :: h in index ==> h in index' && index'[h] == index[h])
    ensures Weighed(index', given)
    ensures e.NewBlock? && e.block.hash !in index && e.block.hash in index' && e.block.prevHash in index
            && index'[e.block.hash].prev == Some(e.block.prevHash) && index'[e.block.hash].trust == index[e.block.prevHash].trust + e.trust
            ==> Weighed(index', given[e.block.hash := e.trust])
  {
  }

  lemma BroughtNext(events: seq<Event>, given: map<Hash, nat>)
    requires events != [] && forall h :: h in given ==> Brought(events[..|events| - 1], h, given[h])
    ensures forall h :: h in given ==> Brought(events, h, given[h])
    ensures var e := events[|events| - 1]; e.NewBlock? ==> Brought(events, e.block.hash, e.trust)
  {
    forall h | h in given ensures Brought(events, h, given[h]) {
      var init := events[..|events| - 1];
      var i :| 0 <= i < |init| && init[i].NewBlock? && init[i].block.hash == h && init[i].trust == given[h];
      assert events[i] == init[i];
    }
  }

  /** No admitted block was refused by a switch. */
  ghost predicate NoneRefused(genesis: Hash, desks: seq<Desk>, events: seq<Event>)
    requires Trace(genesis, desks, events)
  {
    forall i :: 0 <= i < |events| && events[i].NewBlock? && Admitted(genesis, desks[i], events[i].block, events[i].checksOk) ==>
      Added(events[i].rules, genesis, desks[i].s, events[i].block, events[i].trust).0
  }

  /** Fed blocks only, a node that starts on the heaviest chain is on the heaviest chain all along, if and only if no
      switch fails. */
  lemma {:induction false} RunHeaviest(genesis: Hash, desks: seq<Desk>, events: seq<Event>)
    requires Trace(genesis, desks, events) && (forall i :: 0 <= i < |events| ==> events[i].NewBlock?)
    requires desks[0].pending.None? && Heaviest(desks[0].s)
    ensures NoneRefused(genesis, desks, events) <==> forall i :: 0 <= i <= |events| ==> Heaviest(desks[i].s)
  {
    hide Heaviest, DeskOk, Handled, Added, Admitted;
    if events != [] {
      BlockHeaviest(genesis, desks[0], events[0]);
      assert forall i :: 0 <= i < |events| ==> desks[1..][i] == desks[i + 1];
      assert forall i :: 0 <= i < |events| - 1 ==> events[1..][i] == events[i + 1];
      if Heaviest(desks[1].s) {
        RunHeaviest(genesis, desks[1..], events[1..]);
      }
    }
  }

  lemma OnlyHeaviest(s: Sight)
    ensures s.index.Keys == {s.best} ==> Heaviest(s)
  {
  }

  lemma HeaviestSum(s: Sight, genesis: Hash, given: map<Hash, nat>)
    requires TrustSums(s.index, genesis, given) && Heaviest(s)
    ensures LargestSum(s.index, genesis, given, s.best)
  {
    hide TreeOk, Path, AllGiven, GivenSum;
  }

  lemma BlockHeaviest(genesis: Hash, d: Desk, e: Event)
    requires DeskOk(genesis, d) && e.NewBlock? && d.pending.None? && Heaviest(d.s)
    ensures var d' := Handled(genesis, d, e);
            && d'.pending.None?
            && (Heaviest(d'.s) <==> (Admitted(genesis, d, e.block, e.checksOk) ==> Added(e.rules, genesis, d.s, e.block, e.trust).0))
  {
    hide Heaviest, TreeOk, FlagsOk, SyncOk, Added;
    if Admitted(genesis, d, e.block, e.checksOk) { AddedHeaviest(e.rules, genesis, d.s, e.block, e.trust); }
  }

  // ------------------------------------------------------------ the code, over runs

  /** Blocks and checkpoint messages in any order: the node goes through a run of the protocol, so at its end as at
      every point of it the checkpoint is on the main chain and descends from all earlier ones. A node that starts
      consistent and in sync stays in sync if and only if every switch connects its postponed blocks; then it ends
      consistent, its unspent outputs worth the supply recorded for the best block. */
  method Drive(node: Node, events: seq<Event>) returns (ghost run: seq<View>, ghost desks: seq<Desk>)
    requires node.Valid()
    modifies node, node.chain
    ensures node.Valid() && run != [] && IsRun(run) && run[0] == old(node.Seen()) && run[|run| - 1] == node.Seen()
    ensures Wf(node.Seen()) && Ancestor(node.chain.index, node.chain.genesis, old(node.hashSync), node.hashSync)
    ensures Trace(node.chain.genesis, desks, events) && desks[0] == old(node.Now()) && desks[|events|] == node.Now()
    ensures Weighed(node.chain.index, GivenBy(node.chain.genesis, desks, events))
    ensures old(node.chain.index.Keys == {node.chain.genesis}) ==>
              TrustSums(node.chain.index, node.chain.genesis, GivenBy(node.chain.genesis, desks, events))
    ensures old(node.chain.index.Keys == {node.chain.genesis} && node.hashPending.None?) && NoneRefused(node.chain.genesis, desks, events)
            && (forall i :: 0 <= i < |events| ==> events[i].NewBlock?) ==>
              LargestSum(node.chain.index, node.chain.genesis, GivenBy(node.chain.genesis, desks, events), node.chain.best)
    ensures old(node.chain.Valid() && node.chain.InSync()) ==>
              && (AllReconnect(node.chain.genesis, desks, events) <==> AlwaysInSync(node.chain.genesis, desks, events))
              && (AllReconnect(node.chain.genesis, desks, events) ==>
                    && node.chain.Valid() && node.chain.InSync()
                    && node.chain.best in node.chain.moneySupply
                    && Total(node.chain.db.tx) == node.chain.moneySupply[node.chain.best])
  {
    hide Step, Ancestor, IsRun, Wf, Handled, Steady, Reconnects, Abreast, Total, Trace, AlwaysInSync, AllReconnect, TreeOk, FlagsOk,
         DeskOk, SightOk, At, Links, Path, Weighed, TrustSums, GivenBy, Brought, Heaviest, LargestSum, NoneRefused;
    ghost var genesis := node.chain.genesis;
    ghost var good := node.chain.Valid() && node.chain.InSync();
    run, desks := [node.Seen()], [node.Now()];
    RunStarts(node.Seen());
    if good { node.StartsLevel(); }
    TraceStarts(genesis, node.Now());
    assert events[..0] == [];
    for i := 0 to |events|
      invariant node.Valid() && run != [] && IsRun(run) && run[0] == old(node.Seen()) && run[|run| - 1] == node.Seen()
      invariant |desks| == i + 1 && Trace(genesis, desks, events[..i]) && desks[0] == old(node.Now()) && desks[i] == node.Now()
      invariant good && AlwaysInSync(genesis, desks, events[..i]) ==> node.chain.Valid() && node.chain.InSync()
    {
      node.DeskIsOk();
      TraceGrows(genesis, desks, events[..i], events[i]);
      assert events[..i + 1] == events[..i] + [events[i]];
      run := Handle(node, events[i], run);
      desks := desks + [node.Now()];
    }
    assert events[..|events|] == events;
    RunSafe(run, 0, |run| - 1);
    TraceWeighed(genesis, desks, events);
    AllTrustSums(node.chain.index, genesis, GivenBy(genesis, desks, events));
    if desks[0].s.index.Keys == {genesis} && desks[0].pending.None? && forall i :: 0 <= i < |events| ==> events[i].NewBlock? {
      OnlyHeaviest(desks[0].s);
      RunHeaviest(genesis, desks, events);
      if Heaviest(node.chain.Now()) { HeaviestSum(node.chain.Now(), genesis, GivenBy(genesis, desks, events)); }
    }
    if good {
      RunLevel(genesis, desks, events);
      if AllReconnect(genesis, desks, events) { node.chain.TipSupplyIsUnspent(); }
    }
  }

  /** Handle one event, adding what it does to the run. */
  method Handle(node: Node, event: Event, ghost run: seq<View>) returns (ghost run': seq<View>)
    requires node.Valid() && run != [] && IsRun(run) && run[|run| - 1] == node.Seen()
    modifies node, node.chain
    ensures node.Valid() && run <= run' && IsRun(run') && run'[|run'| - 1] == node.Seen()
    ensures DeskOk(node.chain.genesis, old(node.Now())) && node.Now() == Handled(node.chain.genesis, old(node.Now()), event)
    ensures old(node.chain.Valid() && node.chain.InSync()) && Steady(node.chain.genesis, old(node.Now()), event) ==>
              node.chain.Valid() && node.chain.InSync()
  {
    hide Step, Ancestor, IsRun, Wf, TreeOk, FlagsOk, Switched, SyncOk, StrictlyDescends, Added, Total, Carried, Told, TakenUp;
    ghost var genesis, d := node.chain.genesis, node.Now();
    match event
    case NewBlock(rules, block, trust, checksOk, later) =>
      var ok := node.AcceptBlock(rules, block, trust, checksOk, later);
      ghost var mid := ViewOf(genesis, Halfway(genesis, d, event));
      RunGrows(run, mid);
      run' := run + [mid];
      RunGrows(run', node.Seen());
      run' := run' + [node.Seen()];
    case Message(rules, h) =>
      var ok := node.ProcessSyncCheckpoint(rules, h);
      RunGrows(run, node.Seen());
      run' := run + [node.Seen()];
  }

  lemma TraceStarts(genesis: Hash, d: Desk)
    ensures Trace(genesis, [d], []) && AlwaysInSync(genesis, [d], [])
  {
  }

  lemma TraceGrows(genesis: Hash, desks: seq<Desk>, events: seq<Event>, e: Event)
    requires Trace(genesis, desks, events) && DeskOk(genesis, desks[|events|])
    ensures var d := desks[|events|]; var desks' := desks + [Handled(genesis, d, e)];
            && Trace(genesis, desks', events + [e])
            && (AlwaysInSync(genesis, desks', events + [e]) ==> AlwaysInSync(genesis, desks, events) && Steady(genesis, d, e))
  {
    hide Handled, Steady, DeskOk;
    var d := desks[|events|];
    var desks', events' := desks + [Handled(genesis, d, e)], events + [e];
    assert forall i :: 0 <= i <= |events| ==> desks'[i] == desks[i];
    assert forall i :: 0 <= i < |events| ==> events'[i] == events[i];
    assert events'[|events|] == e;
  }

  lemma RunStarts(v: View)
    requires Safe(v)
    ensures IsRun([v])
  {
  }

  lemma RunGrows(run: seq<View>, v: View)
    requires IsRun(run) && Step(run[|run| - 1], v)
    ensures IsRun(run + [v])
  {
    hide Step, Safe;
  }
}

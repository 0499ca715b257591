/** The active chain: pindexBest, the pnext links, the recorded money supply and the transaction
    database, updated in place by ConnectBlock, DisconnectBlock, Reorganize and SetBestChain. */
module ChainState {
  import opened Basics
  import opened Ledger
  import opened Sequences
  import opened Supply
  import opened BlockTree
  import opened Validation
  import opened Replay
  import opened Switching

  /** The transaction database: the index and the recorded hash of the best chain. */
  datatype Store = Store(tx: TxDb, best: Hash)

  // ------------------------------------------------------------ along a branch

  /** The first i of q above k are connected, starting from start; if the database was at q up to k (good), it is
      at q up to there, and exactly so if it was exactly. */
  ghost predicate Along(rules: Rules, index: Index, genesis: Hash, start: TxDb, q: seq<Hash>, k: nat, i: nat,
                        supply: map<Hash, int>, db: TxDb, good: bool, exact: bool)
    requires TreeOk(index, genesis) && Indexed(index, q) && k + i <= |q|
  {
    && ConnectMany(rules, index, genesis, start, q[k..][..i]) == Some(db)
    && (good ==> At(index, q[..k + i], supply, db)) && (exact ==> ExactlyAt(index, q[..k + i], db))
  }

  lemma StartAlong(rules: Rules, index: Index, genesis: Hash, db: TxDb, q: seq<Hash>, k: nat, supply: map<Hash, int>, good: bool, exact: bool)
    requires TreeOk(index, genesis) && Indexed(index, q) && k <= |q|
    requires (good ==> At(index, q[..k], supply, db)) && (exact ==> ExactlyAt(index, q[..k], db))
    ensures Along(rules, index, genesis, db, q, k, 0, supply, db, good, exact)
  {
    assert q[k..][..0] == [];
  }

  lemma EndAlong(rules: Rules, index: Index, genesis: Hash, start: TxDb, q: seq<Hash>, k: nat, supply: map<Hash, int>, db: TxDb, good: bool, exact: bool)
    requires TreeOk(index, genesis) && Indexed(index, q) && k <= |q|
    requires Along(rules, index, genesis, start, q, k, |q| - k, supply, db, good, exact)
    ensures ConnectMany(rules, index, genesis, start, q[k..]) == Some(db)
    ensures (good ==> At(index, q, supply, db)) && (exact ==> ExactlyAt(index, q, db))
  {
    assert q[k..][..|q| - k] == q[k..] && q[..|q|] == q;
  }

  /** The first i of the list are disconnected, starting from start; if the database was at p (good), it is at p cut
      short by i, and exactly so if it was exactly and the ids are fresh (intact). */
  ghost predicate Undone(index: Index, start: TxDb, list: seq<Hash>, i: nat, p: seq<Hash>, supply: map<Hash, int>, db: TxDb, good: bool, intact: bool)
    requires Indexed(index, list) && i <= |list| <= |p|
  {
    && DisconnectMany(index, start, list[..i]) == Some(db)
    && (good ==> At(index, p[..|p| - i], supply, db)) && (intact ==> ExactlyAt(index, p[..|p| - i], db))
  }

  lemma UndoneNext(index: Index, start: TxDb, list: seq<Hash>, i: nat, p: seq<Hash>, supply: map<Hash, int>, db: TxDb, good: bool, intact: bool)
    requires Indexed(index, list) && Indexed(index, p) && i < |list| < |p| && list[i] == p[|p| - 1 - i]
    requires Undone(index, start, list, i, p, supply, db, good, intact)
    requires intact ==> good && FreshAt(index, p, |p| - 1 - i)
    ensures match DisconnectTxs(db, index[list[i]].block.vtx)
            case Some(d) => Undone(index, start, list, i + 1, p, supply, d, good, intact)
            case None => DisconnectMany(index, start, list).None?
  {
    var top := p[..|p| - i];
    DisconnectManyNext(index, start, list, i);
    hide At, ExactlyAt, FreshAt, DisconnectMany;
    assert top[..|top| - 1] == p[..|p| - (i + 1)];
    if intact { FreshPrefix(index, p, |p| - 1 - i); }
    if good && DisconnectTxs(db, index[list[i]].block.vtx).Some? { DisconnectStep(index, top, supply, db); }
  }

  /** The supply recorded for a block: its parent's plus the value its transactions add. */
  function SupplyAfter(b: BlockIndex, supply: map<Hash, int>, db: TxDb): int
    requires b.prev.Some? ==> b.prev.value in supply
    requires ConnectTxs(db, b.block.hash, b.block.vtx).Some?
  {
    (if b.prev.Some? then supply[b.prev.value] else 0)
    + BlockValueOut(b.block.vtx) - BlockValueIn(db, b.block.hash, b.block.vtx)
  }

  /** How far the recorded supply of a block is off the unspent value does not change from a block to the next. */
  lemma DriftKept(rules: Rules, index: Index, genesis: Hash, h: Hash, supply: map<Hash, int>, db: TxDb)
    requires TreeOk(index, genesis) && h in index && index[h].prev.Some? && supply.Keys == index.Keys
    requires Connects(rules, index, genesis, h, db)
    ensures index[h].prev.value in supply && index[h].block.hash == h && ConnectTxs(db, h, index[h].block.vtx).Some?
    ensures Total(ConnectTxs(db, h, index[h].block.vtx).value) - SupplyAfter(index[h], supply, db)
            == Total(db) - supply[index[h].prev.value]
  {
    hide ConnectTxs, Total, BlockValueIn, BlockValueOut;
    AcceptedConnect(rules, index, genesis, h, db, index[h].block.vtx);
    ConnectTotal(db, h, index[h].block.vtx);
  }

  /** The supplies recorded for blocks higher than `top` are the same. */
  ghost predicate Untouched(index: Index, supply: map<Hash, int>, supply': map<Hash, int>, top: nat) {
    forall h :: h in index && h in supply && h in supply' && index[h].height > top ==> supply'[h] == supply[h]
  }

  lemma StillUntouched(index: Index, supply: map<Hash, int>, supply': map<Hash, int>, supply'': map<Hash, int>, low: nat, top: nat)
    requires Untouched(index, supply, supply', low) && Untouched(index, supply', supply'', top) && low <= top
    requires supply.Keys == supply'.Keys == supply''.Keys == index.Keys
    ensures Untouched(index, supply, supply'', top)
  {
  }

  lemma ConnectsWhole(rules: Rules, index: Index, genesis: Hash, h: Hash, db: TxDb)
    requires TreeOk(index, genesis) && h in index && Connects(rules, index, genesis, h, db)
    ensures UniqueIds(index[h].block.vtx) && index[h].block.hash == h && (index[h].prev.Some? ==> index[h].prev.value in index)
  {
    hide TxsAccepted, RewardOk;
  }

  lemma ConnectsStep(rules: Rules, index: Index, genesis: Hash, h: Hash, done: seq<Hash>, supply: map<Hash, int>, db: TxDb)
    requires TreeOk(index, genesis) && h in index && h !in done && supply.Keys == index.Keys
    requires At(index, done, supply, db) && index[h].prev == Some(done[|done| - 1]) && Connects(rules, index, genesis, h, db)
    ensures index[h].block.hash == h && ConnectTxs(db, h, index[h].block.vtx).Some?
    ensures var db', supply' := ConnectTxs(db, h, index[h].block.vtx).value, supply[h := SupplyAfter(index[h], supply, db)];
            && At(index, done + [h], supply', db')
            && (ExactlyAt(index, done, db) ==> ExactlyAt(index, done + [h], db'))
  {
    hide At, ExactlyAt, ConnectTxs, Connects, TreeOk;
    ConnectsAccepts(rules, index, genesis, h, db);
    ConnectsWhole(rules, index, genesis, h, db);
    ConnectStep(index, done, supply, db, h);
  }

  class Chain {
    const genesis: Hash
    var index: Index
    var pnext: map<Hash, Hash>
    var moneySupply: map<Hash, int>
    var mint: map<Hash, int>
    /** The database as the open transaction sees it, and as last committed. */
    var db: Store
    var disk: Store
    var best: Hash

    /** The path of the blocks that are connected in the database. */
    ghost function MainPath(): seq<Hash>
      requires TreeOk(index, genesis) && disk.best in index
      reads this
    {
      Path(index, genesis, disk.best)
    }

    /** What a switch of chains reads and changes. */
    ghost function Now(): Sight
      reads this
    {
      Sight(index, pnext, best, disk.best, db.tx)
    }

    /** What holds in every state: no transaction is open, and only proper ancestors of the best block are linked. */
    ghost predicate Sound()
      reads this
    {
      && TreeOk(index, genesis) && best in index && disk.best in index && db == disk
      && moneySupply.Keys == index.Keys
      && FlagsOk(index, genesis, pnext, best)
    }

    /** The database is the replay of the main path, up to fully spent entries, and the recorded supplies are right. */
    ghost predicate Replayed()
      reads this`index, this`moneySupply, this`db, this`disk
    {
      && TreeOk(index, genesis) && disk.best in index
      && At(index, Path(index, genesis, disk.best), moneySupply, db.tx)
    }

    /** The links are exactly the path to the database's best block, and the database is the replay of that path,
        up to fully spent entries, with the recorded supply the value of its unspent outputs. pindexBest may be
        ahead of the database on the same branch. */
    ghost predicate Valid()
      reads this
    {
      && Sound() && Ancestor(index, genesis, disk.best, best)
      && Replayed()
      && pnext == Links(MainPath())
    }

    /** pindexBest is the block the database is at. */
    ghost predicate InSync()
      reads this
    {
      best == disk.best
    }

    /** The database has lost nothing: it is exactly the replay of the main path. */
    ghost predicate Exact()
      reads this`index, this`db, this`disk
    {
      && TreeOk(index, genesis) && disk.best in index
      && ExactlyAt(index, Path(index, genesis, disk.best), db.tx)
    }

    lemma IsReplayed()
      requires TreeOk(index, genesis) && disk.best in index && At(index, Path(index, genesis, disk.best), moneySupply, db.tx)
      ensures Replayed()
    {
    }

    lemma IsExact()
      requires TreeOk(index, genesis) && disk.best in index && ExactlyAt(index, Path(index, genesis, disk.best), db.tx)
      ensures Exact()
    {
    }

    /** A node that knows the genesis block only; the genesis transactions are not indexed. */
    constructor (g: Block, trust: nat)
      ensures Valid() && InSync() && Exact() && best == g.hash == genesis
      ensures Now() == Sight(map[g.hash := BlockIndex(None, 0, trust, g)], map[], g.hash, g.hash, map[])
    {
      genesis, best := g.hash, g.hash;
      index := map[g.hash := BlockIndex(None, 0, trust, g)];
      pnext, mint, moneySupply := map[], map[g.hash := 0], map[g.hash := 0];
      db, disk := Store(map[], g.hash), Store(map[], g.hash);
      new;
      assert MainPath() == [g.hash];
    }

    /** The unspent outputs are worth the supply recorded for the block the database is at. */
    lemma MoneySupplyIsUnspent()
      requires Valid()
      ensures disk.best in moneySupply && Total(db.tx) == moneySupply[disk.best]
    {
      PathShape(index, genesis, disk.best);
      SupplyIsTotal(index, MainPath(), moneySupply, db.tx);
    }

    /** In sync, that block is the tip. */
    lemma TipSupplyIsUnspent()
      requires Valid() && InSync()
      ensures best in moneySupply && Total(db.tx) == moneySupply[best]
    {
      MoneySupplyIsUnspent();
    }

    /** A block flagged as being in the main chain is on the path to the tip, in every state; in a consistent state
        the blocks flagged are the tip and those below the block the database is at, so in sync all of the path. */
    lemma InMainChainIsOnPath(h: Hash)
      requires Sound() && h in index
      ensures IsInMainChain(h) ==> Ancestor(index, genesis, h, best)
      ensures Valid() ==> (IsInMainChain(h) <==>
                Ancestor(index, genesis, h, best) && (h == best || index[h].height < index[disk.best].height))
      ensures Valid() && InSync() ==> (IsInMainChain(h) <==> Ancestor(index, genesis, h, best))
    {
      OwnAncestor(index, genesis, best);
      if Valid() {
        PathDistinct(index, genesis, disk.best);
        LinksAt(MainPath());
        PathShape(index, genesis, disk.best);
        PathShape(index, genesis, best);
        AncestorAt(index, genesis, h, best);
        AncestorAt(index, genesis, h, disk.best);
        AncestorAt(index, genesis, disk.best, best);
        PathPrefix(index, genesis, best, index[disk.best].height);
      }
    }

    predicate IsInMainChain(h: Hash)
      reads this
    {
      h in pnext || h == best
    }

    // -------------------------------------------------------------- one block

    method DisconnectInputs(tx: Tx) returns (ok: bool)
      modifies this`db
      ensures ok <==> DisconnectTx(old(db.tx), tx).Some?
      ensures ok ==> db == old(db).(tx := DisconnectTx(old(db.tx), tx).value)
    {
      if !tx.IsCoinBase() {
        for i := 0 to |tx.vin|
          invariant ReleaseAll(old(db.tx), tx.vin[..i]) == Some(db.tx) && db.best == old(db.best)
        {
          var prevout := tx.vin[i];
          assert tx.vin[..i + 1][..i] == tx.vin[..i];
          if prevout.hash !in db.tx || prevout.n >= |db.tx[prevout.hash].spent| {
            ReleaseFails(old(db.tx), tx.vin, i);
            return false;
          }
          var e := db.tx[prevout.hash];
          db := db.(tx := db.tx[prevout.hash := e.(spent := e.spent[prevout.n := None])]);
        }
        assert tx.vin[..|tx.vin|] == tx.vin;
      }
      db := db.(tx := db.tx - {tx.id});
      ok := true;
    }

    method DisconnectBlock(h: Hash) returns (ok: bool)
      requires h in index
      modifies this`db
      ensures ok <==> DisconnectTxs(old(db.tx), index[h].block.vtx).Some?
      ensures ok ==> db == old(db).(tx := DisconnectTxs(old(db.tx), index[h].block.vtx).value)
    {
      var vtx := index[h].block.vtx;
      var i := |vtx|;
      assert vtx[..i] == vtx;
      while i > 0
        invariant 0 <= i <= |vtx| && db.best == old(db.best)
        invariant DisconnectTxs(old(db.tx), vtx) == DisconnectTxs(db.tx, vtx[..i])
      {
        i := i - 1;
        assert vtx[..i + 1][..i] == vtx[..i];
        ok := DisconnectInputs(vtx[i]);
        if !ok { return; }
      }
      ok := true;
    }

    /** Connect one block: the queued index changes are written, and the supply recorded. */
    method ConnectBlock(rules: Rules, h: Hash) returns (ok: bool)
      requires TreeOk(index, genesis) && h in index && moneySupply.Keys == index.Keys
      modifies this`db, this`moneySupply, this`mint
      ensures ok <==> Connects(rules, index, genesis, h, old(db.tx))
      ensures ok ==> && ConnectTxs(old(db.tx), h, index[h].block.vtx) == Some(db.tx) && db.best == old(db.best)
                     && mint == old(mint)[h := BlockMint(old(db.tx), h, index[h].block.vtx)]
                     && moneySupply == old(moneySupply[h := SupplyAfter(index[h], moneySupply, db.tx)])
      ensures !ok ==> db == old(db) && moneySupply == old(moneySupply) && mint == old(mint)
    {
      var queued, change, minted;
      ok, queued, change, minted := ConnectTransactions(rules, index, genesis, h, db.tx);
      if !ok { return; }
      mint := mint[h := minted];
      var supply := (if index[h].prev.Some? then moneySupply[index[h].prev.value] else 0) + change;
      assert supply == SupplyAfter(index[h], moneySupply, db.tx);
      moneySupply := moneySupply[h := supply];
      db := db.(tx := db.tx + queued);
    }

    // -------------------------------------------------------------- branches

    /** Disconnect the top |list| blocks of path p, top first. */
    method DisconnectBranch(list: seq<Hash>, ghost p: seq<Hash>, ghost good: bool) returns (ok: bool)
      requires Indexed(index, list) && Indexed(index, p) && |list| < |p| && (good ==> At(index, p, moneySupply, db.tx))
      requires forall i :: 0 <= i < |list| ==> list[i] == p[|p| - 1 - i]
      modifies this`db
      ensures ok <==> DisconnectMany(index, old(db.tx), list).Some?
      ensures ok ==> DisconnectMany(index, old(db.tx), list) == Some(db.tx) && db.best == old(db.best)
      ensures ok && good ==> At(index, p[..|p| - |list|], moneySupply, db.tx)
      ensures ok && good && old(ExactlyAt(index, p, db.tx)) && FreshAbove(index, p, |p| - |list|) ==>
                ExactlyAt(index, p[..|p| - |list|], db.tx)
    {
      ghost var start, intact := db.tx, good && ExactlyAt(index, p, db.tx) && FreshAbove(index, p, |p| - |list|);
      assert p[..|p|] == p && DisconnectMany(index, start, list[..0]) == Some(start);
      hide At, ExactlyAt, FreshAt, DisconnectMany;
      for i := 0 to |list|
        invariant Undone(index, start, list, i, p, moneySupply, db.tx, good, intact) && db.best == old(db.best)
      {
        ghost var before := db.tx;
        UndoneNext(index, start, list, i, p, moneySupply, before, good, intact);
        ok := DisconnectBlock(list[i]);
        if !ok { return; }
      }
      assert list[..|list|] == list;
      ok := true;
    }

    /** Connect block h; if the database is at the path done below h, it is at the path with h after. */
    method ConnectNext(rules: Rules, h: Hash, ghost done: seq<Hash>, ghost good: bool) returns (ok: bool)
      requires TreeOk(index, genesis) && h in index && moneySupply.Keys == index.Keys
      requires good ==> h !in done && At(index, done, moneySupply, db.tx) && done != [] && index[h].prev == Some(done[|done| - 1])
      modifies this`db, this`moneySupply, this`mint
      ensures ok <==> Connects(rules, index, genesis, h, old(db.tx))
      ensures !ok ==> db == old(db) && moneySupply == old(moneySupply)
      ensures ok ==> ConnectTxs(old(db.tx), h, index[h].block.vtx) == Some(db.tx) && db.best == old(db.best)
      ensures ok && good ==> At(index, done + [h], moneySupply, db.tx)
      ensures ok && good && old(ExactlyAt(index, done, db.tx)) ==> ExactlyAt(index, done + [h], db.tx)
      ensures moneySupply.Keys == index.Keys && forall x :: x in index && x != h ==> moneySupply[x] == old(moneySupply)[x]
      ensures ok && index[h].prev.Some? ==>
                && index[h].prev.value in index
                && Total(db.tx) - moneySupply[h] == old(Total(db.tx)) - old(moneySupply)[index[h].prev.value]
    {
      hide At, ExactlyAt, ConnectTxs, Connects, TreeOk, SupplyAfter, BlockMint, Total;
      ghost var before, supply := db.tx, moneySupply;
      if index[h].prev.Some? && Connects(rules, index, genesis, h, db.tx) { DriftKept(rules, index, genesis, h, supply, before); }
      if good && Connects(rules, index, genesis, h, db.tx) { ConnectsStep(rules, index, genesis, h, done, supply, before); }
      ok := ConnectBlock(rules, h);
    }

    /** Connect the blocks of path q above its first k, lowest first. */
    method ConnectBranch(rules: Rules, list: seq<Hash>, ghost q: seq<Hash>, ghost k: nat, ghost good: bool) returns (ok: bool)
      requires TreeOk(index, genesis) && IsPath(index, q) && 0 < k <= |q| && list == q[k..]
      requires Indexed(index, list) && moneySupply.Keys == index.Keys
      requires good ==> At(index, q[..k], moneySupply, db.tx)
      modifies this`db, this`moneySupply, this`mint
      ensures ok <==> ConnectMany(rules, index, genesis, old(db.tx), list).Some?
      ensures ok ==> ConnectMany(rules, index, genesis, old(db.tx), list) == Some(db.tx) && db.best == old(db.best)
      ensures moneySupply.Keys == index.Keys && forall h :: h in index && h !in list ==> moneySupply[h] == old(moneySupply)[h]
      ensures ok && good ==> At(index, q, moneySupply, db.tx)
      ensures ok && good && old(ExactlyAt(index, q[..k], db.tx)) ==> ExactlyAt(index, q, db.tx)
    {
      ghost var start, exact := db.tx, good && ExactlyAt(index, q[..k], db.tx);
      StartAlong(rules, index, genesis, start, q, k, moneySupply, good, exact);
      hide At, ExactlyAt, ConnectMany, Along;
      for i := 0 to |list|
        invariant Along(rules, index, genesis, start, q, k, i, moneySupply, db.tx, good, exact) && db.best == old(db.best)
        invariant moneySupply.Keys == index.Keys && forall h :: h in index && h !in list ==> moneySupply[h] == old(moneySupply)[h]
      {
        ok := ConnectNth(rules, list, i, q, k, start, good, exact);
        if !ok { return; }
      }
      EndAlong(rules, index, genesis, start, q, k, moneySupply, db.tx, good, exact);
      ok := true;
    }

    /** Block i of the list. */
    method ConnectNth(rules: Rules, list: seq<Hash>, i: nat, ghost q: seq<Hash>, ghost k: nat, ghost start: TxDb, ghost good: bool, ghost exact: bool)
      returns (ok: bool)
      requires TreeOk(index, genesis) && IsPath(index, q) && 0 < k <= |q| && list == q[k..] && i < |list| && (exact ==> good)
      requires moneySupply.Keys == index.Keys && Along(rules, index, genesis, start, q, k, i, moneySupply, db.tx, good, exact)
      modifies this`db, this`moneySupply, this`mint
      ensures moneySupply.Keys == index.Keys && forall x :: x in index && x !in list ==> moneySupply[x] == old(moneySupply)[x]
      ensures ok ==> Along(rules, index, genesis, start, q, k, i + 1, moneySupply, db.tx, good, exact) && db.best == old(db.best)
      ensures !ok ==> ConnectMany(rules, index, genesis, start, q[k..]).None?
    {
      hide At, ExactlyAt, Connects, ConnectTxs, ConnectMany;
      var h := list[i];
      ghost var done := q[..k + i];
      assert h == q[k + i] && h !in done;
      ConnectManyNext(rules, index, genesis, start, list, i);
      ok := ConnectNext(rules, h, done, good);
      assert done + [h] == q[..k + i + 1];
    }

    // -------------------------------------------------------------- links

    /** Cut the links of the disconnected blocks, then set those of the connected ones. */
    method Relink(vDisconnect: seq<Hash>, vConnect: seq<Hash>)
      requires Indexed(index, vDisconnect) && Indexed(index, vConnect)
      modifies this`pnext
      ensures pnext == Tie(index, Cut(index, old(pnext), vDisconnect), vConnect)
    {
      for i := 0 to |vDisconnect|
        invariant pnext == Cut(index, old(pnext), vDisconnect[..i])
      {
        var h := vDisconnect[i];
        assert vDisconnect[..i + 1][..i] == vDisconnect[..i];
        if index[h].prev.Some? { pnext := pnext - {index[h].prev.value}; }
      }
      assert vDisconnect[..|vDisconnect|] == vDisconnect;
      ghost var cut := pnext;
      for i := 0 to |vConnect|
        invariant pnext == Tie(index, cut, vConnect[..i])
      {
        var h := vConnect[i];
        assert vConnect[..i + 1][..i] == vConnect[..i];
        if index[h].prev.Some? { pnext := pnext[index[h].prev.value := h]; }
      }
      assert vConnect[..|vConnect|] == vConnect;
    }

    // -------------------------------------------------------------- switching chains

    /** The blocks to disconnect, top first, and to connect, lowest first. */
    method Branches(to: Hash) returns (vDisconnect: seq<Hash>, vConnect: seq<Hash>)
      requires TreeOk(index, genesis) && best in index && to in index
      ensures var p, q := Path(index, genesis, best), Path(index, genesis, to);
              var k := CommonLen(p, q);
              && vDisconnect == Reversed(p[k..]) && vConnect == q[k..] && k > 0
              && IsPath(index, p) && IsPath(index, q) && (forall h :: h in p ==> h !in vConnect)
    {
      hide IsPath, CommonLen, Reversed, TreeOk, Path, Ancestor, IsFork;
      var fork := FindFork(index, genesis, best, to);
      var pfork := fork.value;
      ForkFacts(index, genesis, best, to, pfork);
      vDisconnect := BranchDown(index, genesis, best, pfork);
      vConnect := BranchDown(index, genesis, to, pfork);
      ReversedTwice(Path(index, genesis, to)[index[pfork].height + 1..]);
      vConnect := Reversed(vConnect);
      ForkIsCommonLen(index, genesis, best, to, pfork);
      NotAbove(index, genesis, best, to, pfork);
      PathFacts(index, genesis, best);
      PathFacts(index, genesis, to);
    }

    /** The database part of Reorganize. */
    method SwitchIndex(rules: Rules, vDisconnect: seq<Hash>, vConnect: seq<Hash>, ghost p: seq<Hash>, ghost q: seq<Hash>, ghost k: nat, ghost good: bool)
      returns (ok: bool)
      requires TreeOk(index, genesis) && moneySupply.Keys == index.Keys
      requires IsPath(index, p) && IsPath(index, q) && 0 < k <= |p| && k <= |q| && p[..k] == q[..k]
      requires vDisconnect == Reversed(p[k..]) && vConnect == q[k..]
      requires good ==> At(index, p, moneySupply, db.tx)
      modifies this`db, this`moneySupply, this`mint
      ensures Indexed(index, vDisconnect) && Indexed(index, vConnect)
      ensures ok <==> Switch(rules, index, genesis, old(db.tx), vDisconnect, vConnect).Some?
      ensures ok ==> Switch(rules, index, genesis, old(db.tx), vDisconnect, vConnect) == Some(db.tx)
      ensures ok && good ==> At(index, q, moneySupply, db.tx)
      ensures ok && good && old(ExactlyAt(index, p, db.tx)) && FreshAbove(index, p, k) ==> ExactlyAt(index, q, db.tx)
      ensures moneySupply.Keys == index.Keys && forall h :: h in index && h !in vConnect ==> moneySupply[h] == old(moneySupply)[h]
    {
      BranchLists(index, p, q, k);
      hide At, ExactlyAt, FreshAbove, TreeOk, IsPath, ConnectMany, DisconnectMany, Reversed;
      ok := DisconnectBranch(vDisconnect, p, good);
      if !ok { return; }
      assert p[..|p| - |vDisconnect|] == q[..k];
      ok := ConnectBranch(rules, vConnect, q, k, good);
    }

    /** Leave the branch of the best block for that of `to`, in one database transaction. It succeeds exactly when
        the one disconnects and the other connects; a database that lost nothing always disconnects, so then only
        the new branch decides. */
    method Reorganize(rules: Rules, to: Hash) returns (ok: bool)
      requires Sound() && to in index
      modifies this`db, this`disk, this`moneySupply, this`mint, this`pnext
      ensures ok <==> ReorgResult(rules, index, genesis, old(db.tx), best, to).Some?
      ensures ok ==> ReorgResult(rules, index, genesis, old(db.tx), best, to) == Some(db.tx)
      ensures ok ==> db == disk && disk.best == to && pnext == Relinked(index, genesis, old(pnext), best, to)
      ensures !ok ==> disk == old(disk) && pnext == old(pnext)
      ensures moneySupply.Keys == index.Keys
      ensures !ok ==> SameOn(Path(index, genesis, best), old(moneySupply), moneySupply)
      ensures ok ==> Untouched(index, old(moneySupply), moneySupply, index[to].height)
      ensures ok && old(Valid() && InSync()) ==> Replayed() && pnext == Links(MainPath())
      ensures old(Valid() && InSync() && Exact()) && FreshFork(index, genesis, best, to) ==>
                && (ok ==> Exact())
                && (ok <==> BranchConnects(rules, index, genesis, best, to))
    {
      hide At, ExactlyAt, Switch, Links, FreshAbove, TreeOk, Path, Reversed, CommonLen, IsPath, FlagsOk, Cut, Tie, FreshFork,
           Valid, Sound, Exact, Replayed, BranchConnects, Indexed;
      ReorgFacts(rules, to);
      HigherIsOff(index, genesis, to);
      ghost var good := Valid() && InSync();
      ghost var exact := good && Exact() && FreshFork(index, genesis, best, to);
      ghost var p, q := Path(index, genesis, best), Path(index, genesis, to);
      ghost var k := CommonLen(p, q);
      var vDisconnect, vConnect := Branches(to);
      ok := SwitchIndex(rules, vDisconnect, vConnect, p, q, k, good);
      if !ok { return; }
      db := db.(best := to);
      disk := db;
      Relink(vDisconnect, vConnect);
      if good { IsReplayed(); }
      if exact { IsExact(); }
    }

    /** What a node in sync knows before it leaves its branch. */
    lemma ReorgFacts(rules: Rules, to: Hash)
      requires Sound() && to in index
      ensures TreeOk(index, genesis) && best in index && disk.best in index && db == disk && moneySupply.Keys == index.Keys
      ensures Valid() && InSync() ==>
                && At(index, Path(index, genesis, best), moneySupply, db.tx)
                && Relinked(index, genesis, pnext, best, to) == Links(Path(index, genesis, to))
      ensures Valid() && InSync() && Exact() && FreshFork(index, genesis, best, to) ==>
                && ExactlyAt(index, Path(index, genesis, best), db.tx)
                && FreshAbove(index, Path(index, genesis, best), CommonLen(Path(index, genesis, best), Path(index, genesis, to)))
                && (ReorgResult(rules, index, genesis, db.tx, best, to).Some? <==> BranchConnects(rules, index, genesis, best, to))
    {
      hide At, ExactlyAt, FreshAbove, CommonLen, Path, Relinked, ReorgResult, FlagsOk;
      if Valid() && InSync() {
        RelinkPath(index, genesis, best, to);
        if Exact() && FreshFork(index, genesis, best, to) {
          ReorgFromExact(rules, index, genesis, moneySupply, db.tx, best, to);
        }
      }
    }

    /** Connect one block on top of its parent, as a database transaction of its own. */
    method SetBestChainInner(rules: Rules, h: Hash) returns (ok: bool)
      requires TreeOk(index, genesis) && h in index && index[h].prev.Some? && index[h].prev.value in index
      requires disk.best in index && db == disk && moneySupply.Keys == index.Keys
      modifies this`db, this`disk, this`moneySupply, this`mint, this`pnext
      ensures db == disk && moneySupply.Keys == index.Keys
      ensures ok <==> Connects(rules, index, genesis, h, old(db.tx))
      ensures ok ==> disk.best == h && ConnectTxs(old(db.tx), h, index[h].block.vtx) == Some(db.tx)
      ensures ok ==> pnext == old(pnext)[index[h].prev.value := h]
      ensures !ok ==> disk == old(disk) && pnext == old(pnext) && moneySupply == old(moneySupply)
      ensures forall x :: x in index && x != h ==> moneySupply[x] == old(moneySupply)[x]
      ensures ok ==> Total(db.tx) - moneySupply[h] == old(Total(db.tx)) - old(moneySupply)[index[h].prev.value]
      ensures ok && old(disk.best == index[h].prev.value && Replayed()) ==>
                && Replayed() && (old(Exact()) ==> Exact())
    {
      hide At, ExactlyAt, Connects, ConnectTxs, TreeOk, Path, Replayed, Exact, MainPath, Indexed;
      ghost var path, good, exact := MainPath(), disk.best == index[h].prev.value && Replayed(), Exact();
      NextFacts(h);
      ok := ConnectNext(rules, h, path, good);
      if ok {
        Commit(h, good, good && exact);
      } else {
        db := disk;
      }
    }

    /** What a node at the parent of h knows of the path to h. */
    lemma NextFacts(h: Hash)
      requires TreeOk(index, genesis) && h in index && disk.best in index
      ensures index[h].prev == Some(disk.best) ==>
                && h !in MainPath() && MainPath() != [] && disk.best == MainPath()[|MainPath()| - 1]
                && Path(index, genesis, h) == MainPath() + [h]
      ensures Replayed() ==> At(index, MainPath(), moneySupply, db.tx)
      ensures Exact() ==> ExactlyAt(index, MainPath(), db.tx)
    {
      hide At, ExactlyAt;
      if index[h].prev == Some(disk.best) { ExtendPath(index, genesis, disk.best, h); }
    }

    /** Commit the connection of block h and link it. */
    method Commit(h: Hash, ghost good: bool, ghost exact: bool)
      requires TreeOk(index, genesis) && h in index && index[h].prev.Some?
      requires good ==> At(index, Path(index, genesis, h), moneySupply, db.tx)
      requires exact ==> ExactlyAt(index, Path(index, genesis, h), db.tx)
      modifies this`db, this`disk, this`pnext
      ensures db == disk && disk.best == h && db.tx == old(db.tx) && pnext == old(pnext)[index[h].prev.value := h]
      ensures (good ==> Replayed()) && (exact ==> Exact())
    {
      hide At, ExactlyAt, TreeOk, Path;
      db := db.(best := h);
      disk := db;
      pnext := pnext[index[h].prev.value := h];
    }

    /** Connect the postponed blocks, the last of the list first, stopping at the first that does not connect. */
    method ConnectPostponed(rules: Rules, tip: Hash, base: Hash, secondary: seq<Hash>)
      requires TreeOk(index, genesis) && tip in index && base in index && disk.best in index
      requires db == disk && moneySupply.Keys == index.Keys
      requires Path(index, genesis, tip) == Path(index, genesis, base) + Reversed(secondary)
      modifies this`db, this`disk, this`moneySupply, this`mint, this`pnext
      ensures db == disk && disk.best in index && moneySupply.Keys == index.Keys && Indexed(index, Reversed(secondary))
      ensures Now() == AfterRun(rules, genesis, old(Now()), Reversed(secondary))
      ensures old(disk.best == base && Replayed()) ==>
                Replayed() && (old(Exact()) ==> Exact())
      ensures old(disk.best) == base ==> index[base].height <= index[disk.best].height
      ensures old(disk.best) == base ==> Untouched(index, old(moneySupply), moneySupply, index[disk.best].height)
    {
      hide At, ExactlyAt, Connects, ConnectMany, ConnectRun, TreeOk, Reversed, Path, Tie, Total;
      ghost var up, start, links, from := Reversed(secondary), db.tx, pnext, disk.best;
      ghost var good := disk.best == base && Replayed();
      ghost var exact := Exact();
      PostponedFacts(index, genesis, base, tip, secondary);
      StartPostponed(rules, index, genesis, start, links, up);
      var i := |secondary|;
      ghost var j := 0;
      while i > 0
        invariant 0 <= i <= |secondary| && j == |secondary| - i && disk.best in index
        invariant db == disk && moneySupply.Keys == index.Keys
        invariant PostponedSoFar(rules, index, genesis, start, links, up, j, db.tx, pnext)
        invariant disk.best == (if j == 0 then from else up[j - 1])
        invariant good ==> Replayed() && (exact ==> Exact())
        invariant from == base ==> index[base].height <= index[disk.best].height
        invariant from == base ==> Untouched(index, old(moneySupply), moneySupply, index[disk.best].height)
      {
        i := i - 1;
        var h := secondary[i];
        PostponedAt(index, genesis, base, tip, secondary, j);
        ParentLower(index, genesis, h);
        PostponedNext(rules, index, genesis, start, links, up, j, db.tx, pnext);
        var ok := SetBestChainInner(rules, h);
        if !ok { return; }
        j := j + 1;
      }
      PostponedAll(rules, index, genesis, start, links, up, db.tx, pnext);
    }

    /** Reorganize to the first block of tip's branch that has more trust than the best block, and connect the
        postponed rest as far as it goes. */
    method SwitchOver(rules: Rules, tip: Hash, ghost valid: bool, ghost good: bool, ghost exact: bool) returns (ok: bool)
      requires Sound() && tip in index && index[tip].prev != Some(best)
      requires (valid ==> Valid()) && (good ==> Valid() && InSync()) && (exact ==> good && Exact() && FreshSwitch(index, genesis, best, tip))
      modifies this`db, this`disk, this`moneySupply, this`mint, this`pnext
      ensures db == disk && disk.best in index && moneySupply.Keys == index.Keys
      ensures (ok, Now().(best := if ok then tip else best)) == Switched(rules, genesis, old(Now()), tip)
      ensures (if ok then good else valid) ==> Replayed()
      ensures ok && exact ==> Exact()
      ensures ok ==> Untouched(index, old(moneySupply), moneySupply, index[disk.best].height)
    {
      hide At, ExactlyAt, Connects, Links, ReorgResult, FreshFork, FreshSwitch, TreeOk, Path, FlagsOk, Relinked, ConnectRun, Tie, Ancestor,
           BranchConnects, Valid, Sound, Exact, Replayed, Switched, Intermediate, Reversed, MainPath, Indexed, InSync, Untouched, Total, SameOn, AfterRun;
      ghost var before, supply := Now(), moneySupply;
      SwitchFacts(tip);
      var intermediate, secondary := Postpone(index, genesis, tip, index[best].trust);
      SwitchedByReorg(rules, genesis, before, tip, secondary);
      ok := Relocate(rules, intermediate, valid, good, exact);
      if !ok { return; }
      ghost var between, at := moneySupply, Now();
      ConnectPostponed(rules, tip, intermediate, secondary);
      AfterRunBest(rules, genesis, at, Reversed(secondary), tip);
      StillUntouched(index, supply, between, moneySupply, index[intermediate].height, index[disk.best].height);
    }

    /** Reorganize, giving the database transaction up on failure. */
    method Relocate(rules: Rules, to: Hash, ghost valid: bool, ghost good: bool, ghost exact: bool) returns (ok: bool)
      requires Sound() && to in index
      requires (valid ==> Valid()) && (good ==> Valid() && InSync()) && (exact ==> good && Exact() && FreshFork(index, genesis, best, to))
      modifies this`db, this`disk, this`moneySupply, this`mint, this`pnext
      ensures db == disk && disk.best in index && moneySupply.Keys == index.Keys
      ensures match ReorgResult(rules, index, genesis, old(db.tx), best, to)
              case None => !ok && Now() == old(Now())
              case Some(d) =>
                && ok && Now() == Sight(index, Relinked(index, genesis, old(pnext), best, to), best, to, d)
                && Untouched(index, old(moneySupply), moneySupply, index[to].height)
      ensures (if ok then good else valid) ==> Replayed()
      ensures ok && exact ==> Exact()
    {
      hide At, ExactlyAt, Links, ReorgResult, FreshFork, TreeOk, Path, FlagsOk, Relinked, Ancestor,
           BranchConnects, Valid, Sound, Exact, Replayed, MainPath, Indexed, Untouched, SameOn;
      ghost var supply := moneySupply;
      SwitchFacts(to);
      ok := Reorganize(rules, to);
      if !ok {
        db := disk;
        if valid {
          SupplyKept(index, genesis, disk.best, best, supply, moneySupply, db.tx);
          IsReplayed();
        }
      }
    }

    lemma SwitchFacts(tip: Hash)
      requires Sound() && tip in index
      ensures Valid() ==> Replayed()
      ensures TreeOk(index, genesis) && best in index && disk.best in index && db == disk && moneySupply.Keys == index.Keys
      ensures Valid() ==> At(index, Path(index, genesis, disk.best), moneySupply, db.tx) && Ancestor(index, genesis, disk.best, best)
      ensures index[tip].prev != Some(best) && FreshSwitch(index, genesis, best, tip) ==>
                FreshFork(index, genesis, best, Intermediate(index, genesis, tip, index[best].trust))
    {
    }

    /** The links and the database of a switch to `tip`. */
    method SwitchTo(rules: Rules, tip: Hash, ghost valid: bool, ghost good: bool, ghost exact: bool) returns (ok: bool)
      requires Sound() && tip in index
      requires (valid ==> Valid()) && (good ==> Valid() && InSync()) && (exact ==> good && Exact() && FreshSwitch(index, genesis, best, tip))
      modifies this`db, this`disk, this`moneySupply, this`mint, this`pnext
      ensures db == disk && disk.best in index && moneySupply.Keys == index.Keys
      ensures (ok, Now().(best := if ok then tip else best)) == Switched(rules, genesis, old(Now()), tip)
      ensures (if ok then good else valid) ==> Replayed()
      ensures ok && exact ==> Exact()
      ensures ok ==> Untouched(index, old(moneySupply), moneySupply, index[disk.best].height)
      ensures ok && index[tip].prev == Some(best) ==> Total(db.tx) - moneySupply[tip] == old(Total(db.tx) - moneySupply[best])
    {
      hide At, ExactlyAt, Connects, Links, FreshSwitch, TreeOk, Path, FlagsOk, ConnectTxs, Ancestor, Switched, Replayed, Exact, Switches, Total,
           Valid, Sound;
      SwitchFacts(tip);
      SwitchedShape(rules, genesis, Now(), tip);
      ParentLower(index, genesis, tip);
      if index[tip].prev == Some(best) {
        ok := SetBestChainInner(rules, tip);
      } else {
        ok := SwitchOver(rules, tip, valid, good, exact);
      }
    }

    lemma Unfolded()
      requires Sound()
      ensures SightOk(genesis, Now()) && TreeOk(index, genesis) && best in index && disk.best in index
      ensures db == disk && moneySupply.Keys == index.Keys
      ensures Valid() ==> Ancestor(index, genesis, disk.best, best) && pnext == Links(Path(index, genesis, disk.best))
    {
    }

    lemma IsSound()
      requires SightOk(genesis, Now()) && db == disk && moneySupply.Keys == index.Keys
      ensures Sound()
    {
    }

    lemma IsValid()
      requires Sound() && Ancestor(index, genesis, disk.best, best) && Replayed() && pnext == Links(Path(index, genesis, disk.best))
      ensures Valid()
    {
    }

    /** The links lead to the best block. */
    ghost predicate Linked()
      reads this
    {
      TreeOk(index, genesis) && best in index && pnext == Links(Path(index, genesis, best))
    }

    /** Make `tip` the best block. From a consistent node in sync, the node is consistent after, and links and
        database are at `tip` if and only if all postponed blocks connect. */
    method SetBestChain(rules: Rules, tip: Hash) returns (ok: bool)
      requires Sound() && tip in index
      modifies this`db, this`disk, this`moneySupply, this`mint, this`pnext, this`best
      ensures Sound() && (ok, Now()) == Switched(rules, genesis, old(Now()), tip)
      ensures if ok then best == tip else Now() == old(Now())
      ensures old(Valid() && InSync()) || (!ok && old(Valid())) ==> Valid()
      ensures ok && old(Valid() && InSync()) ==>
                && (InSync() <==> PostponedConnect(rules, index, genesis, old(db.tx), old(best), tip))
                && (Linked() <==> PostponedConnect(rules, index, genesis, old(db.tx), old(best), tip))
      ensures ok && old(Valid() && InSync() && Exact()) && FreshSwitch(index, genesis, old(best), tip) ==> Exact()
      ensures ok ==> Untouched(index, old(moneySupply), moneySupply, index[disk.best].height)
      ensures ok && index[tip].prev == Some(old(best)) ==>
                && Total(db.tx) - moneySupply[tip] == old(Total(db.tx) - moneySupply[best])
                && (old(Valid()) ==> (Valid() <==> old(InSync())))
    {
      hide At, ExactlyAt, Links, FreshSwitch, TreeOk, Path, FlagsOk, Ancestor, Switched, PostponedConnect,
           Replayed, Exact, Switches, SightOk, Sound, Valid, Linked, Total, Untouched, Connects;
      ghost var before, valid, good := Now(), Valid(), Valid() && InSync();
      ghost var exact := good && Exact() && FreshSwitch(index, genesis, best, tip);
      Unfolded();
      SwitchedOk(rules, genesis, before, tip);
      SwitchedShape(rules, genesis, before, tip);
      if good { SwitchedLinks(rules, genesis, before, tip); }
      if valid && index[tip].prev == Some(best) { ExtendedLinks(index, genesis, disk.best, best, tip); }
      ok := SwitchTo(rules, tip, valid, good, exact);
      if ok { best := tip; }
      IsSound();
      if good || (valid && !ok) { IsValid(); }
      if good { LinkedInSync(); }
      if valid && !good && ok && index[tip].prev == Some(before.best) { NotValid(); }
    }

    lemma NotValid()
      requires TreeOk(index, genesis) && disk.best in index && pnext != Links(Path(index, genesis, disk.best))
      ensures !Valid()
    {
    }

    lemma LinkedInSync()
      requires Valid()
      ensures Linked() <==> InSync()
    {
      hide At;
      LinksTellTip(index, genesis, disk.best, best);
    }

    /** Index a block whose parent is known, and switch to it when it has more trust than the tip. */
    method AddToBlockIndex(rules: Rules, block: Block, blockTrust: nat) returns (ok: bool)
      requires Sound() && block.prevHash in index
      modifies this
      ensures Sound() && (ok, Now()) == Added(rules, genesis, old(Now()), block, blockTrust)
      ensures old(block.hash in index) ==> !ok && unchanged(this)
      ensures old(block.hash !in index) ==>
                && index.Keys == old(index.Keys) + {block.hash} && (forall h :: h in old(index) ==> index[h] == old(index)[h])
                && index[block.hash].prev == Some(block.prevHash) && index[block.hash].block == block
                && index[block.hash].height == old(index)[block.prevHash].height + 1
                && index[block.hash].trust == old(index)[block.prevHash].trust + blockTrust
      ensures old(block.hash !in index) ==>
                && (best == block.hash <==>
                      && old(index)[block.prevHash].trust + blockTrust > old(index[best].trust)
                      && Switches(rules, index, genesis, old(db.tx), old(best), block.hash))
                && (best != block.hash ==> best == old(best))
      ensures old(Valid() && InSync()) || (best == old(best) && old(Valid())) ==> Valid()
      ensures old(Valid() && InSync() && Exact()) ==>
                block.hash in index && (best != block.hash || FreshSwitch(index, genesis, old(best), block.hash) ==> Exact())
      ensures old(block.hash !in index && Valid() && InSync()) ==>
                (Total(db.tx) == moneySupply[best] <==> InSync() || Total(db.tx) == 0)
      ensures old(block.hash !in index && block.prevHash == best) && best == block.hash ==>
                && Total(db.tx) - moneySupply[best] == old(Total(db.tx) - moneySupply[best])
                && (old(Valid()) ==> (Valid() <==> old(InSync())))
    {
      hide At, ExactlyAt, Switched, FreshSwitch, Links, TreeOk, Path, FlagsOk, Ancestor, Total, PostponedConnect, Switches, ChildOf;
      if block.hash in index { return false; }
      ghost var index0, supply0, path, valid := index, moneySupply, MainPath(), Valid();
      index := index[block.hash := ChildOf(index, block, blockTrust)];
      moneySupply, mint := moneySupply[block.hash := 0], mint[block.hash := 0];
      ChildIs(index0, block, blockTrust);
      ChildKeepsTree(index0, genesis, block, blockTrust);
      ChildKeepsPaths(index0, genesis, block, blockTrust, pnext, best, disk.best);
      if valid { AtFrame(index0, index, path, supply0, moneySupply, db.tx); }
      ok := true;
      if index[block.hash].trust > index[best].trust {
        SwitchedShape(rules, genesis, Now(), block.hash);
        ok := SetBestChain(rules, block.hash);
      }
      if valid { SupplyOfDatabase(); }
    }

    /** A best block that is ahead of the database is higher than the database's block. */
    lemma SupplyOfDatabase()
      ensures Valid() ==> disk.best in moneySupply && Total(db.tx) == moneySupply[disk.best]
      ensures Valid() && !InSync() ==> index[best].height > index[disk.best].height
    {
      if Valid() {
        MoneySupplyIsUnspent();
        AncestorAt(index, genesis, disk.best, best);
        PathShape(index, genesis, best);
      }
    }
  }

  /** Walk back to the first block of the branch that makes it the best one, collecting those above it. */
  method Postpone(index: Index, genesis: Hash, tip: Hash, trust: nat) returns (intermediate: Hash, secondary: seq<Hash>)
    requires TreeOk(index, genesis) && tip in index
    ensures intermediate == Intermediate(index, genesis, tip, trust)
    ensures Path(index, genesis, tip) == Path(index, genesis, intermediate) + Reversed(secondary)
  {
    intermediate, secondary := tip, [];
    while index[intermediate].prev.Some? && index[index[intermediate].prev.value].trust > trust
      invariant intermediate in index
      invariant Path(index, genesis, tip) == Path(index, genesis, intermediate) + Reversed(secondary)
      invariant Intermediate(index, genesis, tip, trust) == Intermediate(index, genesis, intermediate, trust)
      decreases index[intermediate].height
    {
      ReversedSnoc(secondary, intermediate);
      secondary := secondary + [intermediate];
      intermediate := index[intermediate].prev.value;
    }
  }

  lemma ForkFacts(index: Index, genesis: Hash, a: Hash, b: Hash, f: Hash)
    requires TreeOk(index, genesis) && a in index && b in index && IsFork(index, genesis, a, b, f)
    ensures f in index && Ancestor(index, genesis, f, a) && Ancestor(index, genesis, f, b)
  {
  }

  lemma NotAbove(index: Index, genesis: Hash, a: Hash, b: Hash, f: Hash)
    requires TreeOk(index, genesis) && a in index && b in index && IsFork(index, genesis, a, b, f)
    ensures index[f].height < |Path(index, genesis, b)|
    ensures forall h :: h in Path(index, genesis, a) ==> h !in Path(index, genesis, b)[index[f].height + 1..]
  {
    ForkDisjoint(index, genesis, a, b, f);
    hide Path, TreeOk, IsFork;
  }

  lemma ParentLower(index: Index, genesis: Hash, h: Hash)
    requires TreeOk(index, genesis) && h in index
    ensures index[h].prev.Some? ==> index[h].prev.value in index && index[h].height == index[index[h].prev.value].height + 1
  {
  }

  lemma BranchLists(index: Index, p: seq<Hash>, q: seq<Hash>, k: nat)
    requires IsPath(index, p) && IsPath(index, q) && 0 < k <= |p| && k <= |q|
    ensures var list := Reversed(p[k..]);
            |list| == |p| - k && Indexed(index, list) && forall i :: 0 <= i < |list| ==> list[i] == p[|p| - 1 - i]
    ensures Indexed(index, p) && Indexed(index, q) && Indexed(index, q[k..])
  {
  }

  lemma ReleaseFails(db: TxDb, vin: seq<OutPoint>, i: nat)
    requires i < |vin| && ReleaseAll(db, vin[..i]).Some? && !InRange(ReleaseAll(db, vin[..i]).value, vin[i])
    ensures ReleaseAll(db, vin).None?
  {
    ReleaseMarks(db, vin[..i]);
    ReleaseMarks(db, vin);
    assert vin[i] in vin;
  }
}

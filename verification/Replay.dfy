/** The transaction index as a function of a path of blocks: replaying the path from genesis, and how
    one connected or disconnected block moves between replays. */
module Replay {
  import opened Basics
  import opened Ledger
  import opened Supply
  import opened BlockTree

  ghost predicate Indexed(index: Index, path: seq<Hash>) {
    forall i :: 0 <= i < |path| ==> path[i] in index
  }

  /** The index after connecting every block of the path but the first; the genesis transactions
      never enter the index. */
  function ReplayPath(index: Index, path: seq<Hash>): Option<TxDb>
    requires Indexed(index, path)
  {
    if |path| <= 1 then Some(map[]) else
    var h := path[|path| - 1];
    match ReplayPath(index, path[..|path| - 1])
    case None => None
    case Some(d) => ConnectTxs(d, h, index[h].block.vtx)
  }

  /** The path replays, its blocks repeat no id inside a block, and each block's recorded money supply
      is the value of the unspent outputs after it. */
  ghost predicate ChainOk(index: Index, path: seq<Hash>, supply: map<Hash, int>)
    requires Indexed(index, path)
  {
    && path != []
    && ReplayPath(index, path).Some?
    && path[|path| - 1] in supply
    && supply[path[|path| - 1]] == Total(ReplayPath(index, path).value)
    && (|path| > 1 ==> ChainOk(index, path[..|path| - 1], supply) && UniqueIds(index[path[|path| - 1]].block.vtx))
  }

  /** Block i of the path reuses no id that is in the index it connects to. */
  ghost predicate FreshAt(index: Index, path: seq<Hash>, i: nat)
    requires Indexed(index, path) && i < |path|
  {
    ReplayPath(index, path[..i]).Some? ==> ReplayPath(index, path[..i]).value.Keys !! Ids(index[path[i]].block.vtx)
  }

  /** No block of the path from place k on does. */
  ghost predicate FreshAbove(index: Index, path: seq<Hash>, k: nat)
    requires Indexed(index, path)
  {
    forall i :: k <= i < |path| ==> FreshAt(index, path, i)
  }

  lemma {:induction false} ChainPrefix(index: Index, path: seq<Hash>, supply: map<Hash, int>, n: nat)
    requires Indexed(index, path) && ChainOk(index, path, supply) && 0 < n <= |path|
    ensures ChainOk(index, path[..n], supply)
    decreases |path|
  {
    if n == |path| {
      assert path[..n] == path;
    } else {
      ChainPrefix(index, path[..|path| - 1], supply, n);
      assert path[..|path| - 1][..n] == path[..n];
    }
  }

  lemma {:induction false} ReplayFrame(index: Index, index': Index, path: seq<Hash>)
    requires Indexed(index, path) && Indexed(index', path)
    requires forall i :: 0 <= i < |path| ==> index[path[i]] == index'[path[i]]
    ensures ReplayPath(index, path) == ReplayPath(index', path)
  {
    if |path| > 1 { ReplayFrame(index, index', path[..|path| - 1]); }
  }

  /** The judgement only looks at the blocks of the path and their recorded supply. */
  lemma {:induction false} ChainFrame(index: Index, index': Index, path: seq<Hash>, supply: map<Hash, int>, supply': map<Hash, int>)
    requires Indexed(index, path) && Indexed(index', path) && ChainOk(index, path, supply)
    requires forall i :: 0 <= i < |path| ==> index[path[i]] == index'[path[i]]
    requires forall i :: 0 <= i < |path| && path[i] in supply ==> path[i] in supply' && supply'[path[i]] == supply[path[i]]
    ensures ChainOk(index', path, supply')
    decreases |path|
  {
    ReplayFrame(index, index', path);
    if |path| > 1 { ChainFrame(index, index', path[..|path| - 1], supply, supply'); }
  }

  /** The state "the database is at this path": its index is the replay of the path, up to fully
      spent entries, and the recorded supplies are right. */
  ghost predicate At(index: Index, path: seq<Hash>, supply: map<Hash, int>, db: TxDb) {
    && Indexed(index, path) && ChainOk(index, path, supply)
    && Covers(db, ReplayPath(index, path).value)
  }

  /** Nothing was lost: the index is exactly the replay of the path. */
  ghost predicate ExactlyAt(index: Index, path: seq<Hash>, db: TxDb) {
    Indexed(index, path) && ReplayPath(index, path) == Some(db)
  }

  /** At a path, the unspent outputs are worth exactly the supply recorded for its last block. */
  lemma SupplyIsTotal(index: Index, path: seq<Hash>, supply: map<Hash, int>, db: TxDb)
    requires At(index, path, supply, db)
    ensures path != [] && path[|path| - 1] in supply && Total(db) == supply[path[|path| - 1]]
  {
    TotalCovers(db, ReplayPath(index, path).value);
  }

  lemma AtFrame(index: Index, index': Index, path: seq<Hash>, supply: map<Hash, int>, supply': map<Hash, int>, db: TxDb)
    requires At(index, path, supply, db) && Indexed(index', path)
    requires forall i :: 0 <= i < |path| ==> index[path[i]] == index'[path[i]]
    requires forall i :: 0 <= i < |path| && path[i] in supply ==> path[i] in supply' && supply'[path[i]] == supply[path[i]]
    ensures At(index', path, supply', db)
    ensures ExactlyAt(index, path, db) ==> ExactlyAt(index', path, db)
  {
    ReplayFrame(index, index', path);
    ChainFrame(index, index', path, supply, supply');
  }

  /** Connecting one more block extends the replay, and the supply it records is the new total. */
  lemma ConnectStep(index: Index, path: seq<Hash>, supply: map<Hash, int>, db: TxDb, h: Hash)
    requires At(index, path, supply, db) && h in index && h !in path && path[|path| - 1] in supply
    requires UniqueIds(index[h].block.vtx) && ConnectTxs(db, h, index[h].block.vtx).Some?
    ensures var vtx := index[h].block.vtx;
            var supply' := supply[h := supply[path[|path| - 1]] + BlockValueOut(vtx) - BlockValueIn(db, h, vtx)];
            var db' := ConnectTxs(db, h, vtx).value;
            && At(index, path + [h], supply', db')
            && (ExactlyAt(index, path, db) ==> ExactlyAt(index, path + [h], db'))
  {
    hide ConnectTxs, Total, Covers, BlockValueIn;
    var vtx := index[h].block.vtx;
    var supply' := supply[h := supply[path[|path| - 1]] + BlockValueOut(vtx) - BlockValueIn(db, h, vtx)];
    var r := ReplayPath(index, path).value;
    assert (path + [h])[..|path + [h]| - 1] == path;
    ConnectCovered(db, r, h, vtx);
    TotalCovers(db, r);
    ConnectTotal(db, h, vtx);
    TotalCovers(ConnectTxs(db, h, vtx).value, ConnectTxs(r, h, vtx).value);
    ChainFrame(index, index, path, supply, supply');
  }

  /** Disconnecting the last block goes back to the shorter replay; nothing is lost when the block reused no id. */
  lemma DisconnectStep(index: Index, path: seq<Hash>, supply: map<Hash, int>, db: TxDb)
    requires |path| > 1 && At(index, path, supply, db)
    requires DisconnectTxs(db, index[path[|path| - 1]].block.vtx).Some?
    ensures var init, vtx := path[..|path| - 1], index[path[|path| - 1]].block.vtx;
            var d := DisconnectTxs(db, vtx).value;
            && At(index, init, supply, d)
            && (ExactlyAt(index, path, db) && FreshAt(index, path, |path| - 1) ==> ExactlyAt(index, init, d))
  {
    var init, h := path[..|path| - 1], path[|path| - 1];
    var r := ReplayPath(index, init).value;
    DisconnectCovered(r, h, index[h].block.vtx, db);
    if ExactlyAt(index, path, db) {
      DisconnectUndoesConnect(r, h, index[h].block.vtx);
    }
  }

  /** A block on top of a replay that reuses no id disconnects to that replay. */
  lemma DisconnectExact(index: Index, path: seq<Hash>, supply: map<Hash, int>)
    requires |path| > 1 && Indexed(index, path) && ChainOk(index, path, supply) && FreshAt(index, path, |path| - 1)
    ensures ReplayPath(index, path[..|path| - 1]).Some?
    ensures DisconnectTxs(ReplayPath(index, path).value, index[path[|path| - 1]].block.vtx) == ReplayPath(index, path[..|path| - 1])
  {
    var h := path[|path| - 1];
    DisconnectUndoesConnect(ReplayPath(index, path[..|path| - 1]).value, h, index[h].block.vtx);
  }
}

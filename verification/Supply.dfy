/** The value held by the unspent outputs of a transaction index, and how connecting a block
    changes it: the bookkeeping behind nMoneySupply. */
module Supply {
  import opened Basics
  import opened Ledger

  /** Value of the unspent outputs among the first n. */
  function UnspentUpTo(e: TxIndex, n: nat): int
    requires n <= |e.tx.vout| && n <= |e.spent|
  {
    if n == 0 then 0
    else UnspentUpTo(e, n - 1) + if e.spent[n - 1].None? then e.tx.vout[n - 1].value else 0
  }

  function Unspent(e: TxIndex): int { UnspentUpTo(e, Min(|e.tx.vout|, |e.spent|)) }

  /** Sum of the unspent outputs of all entries. */
  ghost function Total(db: TxDb): int
    decreases |db|
  {
    if db == map[] then 0 else
    var k :| k in db;
    Unspent(db[k]) + Total(db - {k})
  }

  function ValueOut(vout: seq<TxOut>): int {
    if vout == [] then 0 else ValueOut(vout[..|vout| - 1]) + vout[|vout| - 1].value
  }

  /** Value of the output an input refers to; 0 when there is none. */
  function PrevValue(db: TxDb, op: OutPoint): int {
    if op.hash in db && op.n < |db[op.hash].tx.vout| then db[op.hash].tx.vout[op.n].value else 0
  }

  function ValueIn(db: TxDb, vin: seq<OutPoint>): int {
    if vin == [] then 0 else ValueIn(db, vin[..|vin| - 1]) + PrevValue(db, vin[|vin| - 1])
  }

  function TxValueIn(db: TxDb, tx: Tx): int { if tx.IsCoinBase() then 0 else ValueIn(db, tx.vin) }

  /** Values entering and leaving the transactions of a block, each seen by the index before it. */
  function BlockValueIn(db: TxDb, block: Hash, txs: seq<Tx>): int
    requires ConnectTxs(db, block, txs).Some?
  {
    if txs == [] then 0 else
    BlockValueIn(db, block, txs[..|txs| - 1])
    + TxValueIn(ConnectTxs(db, block, txs[..|txs| - 1]).value, txs[|txs| - 1])
  }

  function BlockValueOut(txs: seq<Tx>): int {
    if txs == [] then 0 else BlockValueOut(txs[..|txs| - 1]) + ValueOut(txs[|txs| - 1].vout)
  }

  /** Newly created value: what coinbase and coinstake transactions pay out above their inputs. */
  function BlockMint(db: TxDb, block: Hash, txs: seq<Tx>): int
    requires ConnectTxs(db, block, txs).Some?
  {
    if txs == [] then 0 else
    var init, t := txs[..|txs| - 1], txs[|txs| - 1];
    BlockMint(db, block, init)
    + if t.IsCoinBase() || t.IsCoinStake()
      then ValueOut(t.vout) - TxValueIn(ConnectTxs(db, block, init).value, t) else 0
  }

  /** What the other transactions leave unclaimed. */
  function BlockFees(db: TxDb, block: Hash, txs: seq<Tx>): int
    requires ConnectTxs(db, block, txs).Some?
  {
    if txs == [] then 0 else
    var init, t := txs[..|txs| - 1], txs[|txs| - 1];
    BlockFees(db, block, init)
    + if t.IsCoinBase() || t.IsCoinStake()
      then 0 else TxValueIn(ConnectTxs(db, block, init).value, t) - ValueOut(t.vout)
  }

  /** The supply grows by what is minted and shrinks by the fees, which nobody collects. */
  lemma {:induction false} FeesAreDestroyed(db: TxDb, block: Hash, txs: seq<Tx>)
    requires ConnectTxs(db, block, txs).Some?
    ensures BlockValueOut(txs) - BlockValueIn(db, block, txs)
            == BlockMint(db, block, txs) - BlockFees(db, block, txs)
  {
    if txs != [] { FeesAreDestroyed(db, block, txs[..|txs| - 1]); }
  }

  // ---------------------------------------------------------------- the sum over a map

  /** Any key may be split off first. */
  lemma {:induction false} TotalSplit(db: TxDb, k: Hash)
    requires k in db
    ensures Total(db) == Unspent(db[k]) + Total(db - {k})
    decreases |db|
  {
    var j :| j in db && Total(db) == Unspent(db[j]) + Total(db - {j});
    if j != k {
      TotalSplit(db - {j}, k);
      TotalSplit(db - {k}, j);
      assert db - {j} - {k} == db - {k} - {j};
    }
  }

  lemma TotalUpdate(db: TxDb, k: Hash, e: TxIndex)
    ensures Total(db[k := e]) == Total(db) - (if k in db then Unspent(db[k]) else 0) + Unspent(e)
  {
    TotalSplit(db[k := e], k);
    assert db[k := e] - {k} == db - {k};
    if k in db { TotalSplit(db, k); } else { assert db - {k} == db; }
  }

  lemma {:induction false} FullySpentUpTo(e: TxIndex, n: nat)
    requires n <= |e.tx.vout| && n <= |e.spent| && FullySpent(e)
    ensures UnspentUpTo(e, n) == 0
  {
    if n > 0 { FullySpentUpTo(e, n - 1); }
  }

  /** Losing fully spent entries does not change the total. */
  lemma {:induction false} TotalCovers(db: TxDb, r: TxDb)
    requires Covers(db, r)
    ensures Total(db) == Total(r)
    decreases |r|
  {
    if r == map[] {
      assert db == map[];
    } else {
      var k :| k in r;
      TotalSplit(r, k);
      TotalCovers(db - {k}, r - {k});
      if k in db {
        TotalSplit(db, k);
      } else {
        assert db - {k} == db;
        FullySpentUpTo(r[k], Min(|r[k].tx.vout|, |r[k].spent|));
      }
    }
  }

  // ---------------------------------------------------------------- spending conserves value

  lemma {:induction false} MarkUpTo(e: TxIndex, i: nat, pos: DiskPos, n: nat)
    requires n <= |e.tx.vout| && n <= |e.spent| && i < |e.spent| && i < |e.tx.vout| && e.spent[i].None?
    ensures UnspentUpTo(e.(spent := e.spent[i := Some(pos)]), n)
            == UnspentUpTo(e, n) - if i < n then e.tx.vout[i].value else 0
  {
    if n > 0 { MarkUpTo(e, i, pos, n - 1); }
  }

  /** The values inputs refer to depend only on the transactions of the index, not on its marks. */
  lemma {:induction false} ValueInMarked(db: TxDb, d: TxDb, vin: seq<OutPoint>)
    requires d.Keys == db.Keys && forall k :: k in db ==> d[k].tx == db[k].tx
    ensures ValueIn(d, vin) == ValueIn(db, vin)
  {
    if vin != [] { ValueInMarked(db, d, vin[..|vin| - 1]); }
  }

  lemma {:induction false} SpendTotal(db: TxDb, vin: seq<OutPoint>, pos: DiskPos)
    requires SpendAll(db, vin, pos).Some?
    ensures Total(SpendAll(db, vin, pos).value) == Total(db) - ValueIn(db, vin)
  {
    if vin != [] {
      var init, op := vin[..|vin| - 1], vin[|vin| - 1];
      SpendTotal(db, init, pos);
      SpendMarks(db, init, pos);
      var d := SpendAll(db, init, pos).value;
      var e := d[op.hash];
      MarkUpTo(e, op.n, pos, Min(|e.tx.vout|, |e.spent|));
      TotalUpdate(d, op.hash, e.(spent := e.spent[op.n := Some(pos)]));
    }
  }

  lemma {:induction false} FreshUpTo(tx: Tx, pos: DiskPos, n: nat)
    requires n <= |tx.vout|
    ensures UnspentUpTo(NewEntry(tx, pos), n) == ValueOut(tx.vout[..n])
  {
    if n > 0 {
      FreshUpTo(tx, pos, n - 1);
      assert tx.vout[..n][..n - 1] == tx.vout[..n - 1];
    }
  }

  lemma ConnectTxTotal(base: TxDb, m: TxDb, t: Tx, pos: DiskPos)
    requires ConnectTx(base, m, t, pos).Some? && (t.id in m ==> FullySpent(m[t.id]))
    ensures Total(ConnectTx(base, m, t, pos).value) == Total(m) + ValueOut(t.vout) - TxValueIn(m, t)
  {
    var d := if t.IsCoinBase() then m else SpendAll(m, t.vin, pos).value;
    if !t.IsCoinBase() {
      SpendTotal(m, t.vin, pos);
      SpendMarks(m, t.vin, pos);
    }
    if t.id in m { FullySpentUpTo(d[t.id], Min(|d[t.id].tx.vout|, |d[t.id].spent|)); }
    TotalUpdate(d, t.id, NewEntry(t, pos));
    FreshUpTo(t, pos, |t.vout|);
    assert t.vout[..|t.vout|] == t.vout;
  }

  /** Connecting a block changes the value held by the index by exactly what its transactions
      pay out minus what they take in. */
  lemma {:induction false} ConnectTotal(db: TxDb, block: Hash, txs: seq<Tx>)
    requires ConnectTxs(db, block, txs).Some? && UniqueIds(txs)
    ensures Total(ConnectTxs(db, block, txs).value)
            == Total(db) + BlockValueOut(txs) - BlockValueIn(db, block, txs)
  {
    if txs != [] {
      var init, t := txs[..|txs| - 1], txs[|txs| - 1];
      ConnectTotal(db, block, init);
      var m := ConnectTxs(db, block, init).value;
      ConnectKeys(db, block, init);
      assert t.id !in Ids(init);
      if t.id in m { SpentEntryKept(db, block, init, t.id); }
      ConnectTxTotal(db, m, t, DiskPos(block, |txs| - 1));
    }
  }
}

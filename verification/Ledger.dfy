/** Transactions and the transaction index: what connecting and disconnecting the
    transactions of a block does to the spent flags, stated on values. The index maps a
    transaction id to the transaction, its disk position and one spent mark per output. */
module Ledger {
  import opened Basics

  const NULL_INDEX: nat := 0xFFFF_FFFF
  const MAX_MONEY: int := 120_000_000_000_000

  predicate MoneyRange(v: int) { 0 <= v <= MAX_MONEY }

  datatype OutPoint = OutPoint(hash: Hash, n: nat) {
    predicate IsNull() { hash == 0 && n == NULL_INDEX }
  }

  datatype TxOut = TxOut(value: int, script: seq<nat>) {
    predicate IsEmpty() { value == 0 && script == [] }
  }

  datatype Tx = Tx(id: Hash, time: int, vin: seq<OutPoint>, vout: seq<TxOut>) {
    predicate IsCoinBase() { |vin| == 1 && vin[0].IsNull() && |vout| >= 1 }
    predicate IsCoinStake() { |vin| > 0 && !vin[0].IsNull() && |vout| >= 2 && vout[0].IsEmpty() }
  }

  /** Position of a transaction on disk: the block holding it and its place in the block. */
  datatype DiskPos = DiskPos(block: Hash, slot: nat)

  /** A spent mark is the position of the spending transaction, or None when unspent. */
  datatype TxIndex = TxIndex(tx: Tx, pos: DiskPos, spent: seq<Option<DiskPos>>)

  type TxDb = map<Hash, TxIndex>

  predicate FullySpent(e: TxIndex) { forall i :: 0 <= i < |e.spent| ==> e.spent[i].Some? }

  predicate InRange(db: TxDb, op: OutPoint) { op.hash in db && op.n < |db[op.hash].spent| }

  predicate CanSpend(db: TxDb, op: OutPoint) {
    InRange(db, op) && op.n < |db[op.hash].tx.vout| && db[op.hash].spent[op.n].None?
  }

  function SetMark(db: TxDb, op: OutPoint, mark: Option<DiskPos>): TxDb
    requires InRange(db, op)
  {
    var e := db[op.hash];
    db[op.hash := e.(spent := e.spent[op.n := mark])]
  }

  function NewEntry(tx: Tx, pos: DiskPos): TxIndex {
    TxIndex(tx, pos, seq(|tx.vout|, _ => None))
  }

  /** Mark every input as spent, in order; None at the first one that is missing or spent. */
  function SpendAll(db: TxDb, vin: seq<OutPoint>, pos: DiskPos): Option<TxDb> {
    if vin == [] then Some(db) else
    match SpendAll(db, vin[..|vin| - 1], pos)
    case None => None
    case Some(d) =>
      var op := vin[|vin| - 1];
      if CanSpend(d, op) then Some(SetMark(d, op, Some(pos))) else None
  }

  /** Clear the mark of every input, in order; None at the first one that is missing. */
  function ReleaseAll(db: TxDb, vin: seq<OutPoint>): Option<TxDb> {
    if vin == [] then Some(db) else
    match ReleaseAll(db, vin[..|vin| - 1])
    case None => None
    case Some(d) =>
      var op := vin[|vin| - 1];
      if InRange(d, op) then Some(SetMark(d, op, None)) else None
  }

  /** The overwrite rule: a transaction may reuse an id only when the older one is fully spent. */
  predicate MayOverwrite(base: TxDb, id: Hash) { id in base ==> FullySpent(base[id]) }

  function ConnectTx(base: TxDb, db: TxDb, tx: Tx, pos: DiskPos): Option<TxDb> {
    if !MayOverwrite(base, tx.id) then None
    else if tx.IsCoinBase() then Some(db[tx.id := NewEntry(tx, pos)])
    else match SpendAll(db, tx.vin, pos)
         case None => None
         case Some(d) => Some(d[tx.id := NewEntry(tx, pos)])
  }

  /** Connect transactions one after the other; the overwrite rule looks at the start index. */
  function ConnectTxs(db: TxDb, block: Hash, txs: seq<Tx>): Option<TxDb> {
    if txs == [] then Some(db) else
    match ConnectTxs(db, block, txs[..|txs| - 1])
    case None => None
    case Some(d) => ConnectTx(db, d, txs[|txs| - 1], DiskPos(block, |txs| - 1))
  }

  function DisconnectTx(db: TxDb, tx: Tx): Option<TxDb> {
    if tx.IsCoinBase() then Some(db - {tx.id})
    else match ReleaseAll(db, tx.vin)
         case None => None
         case Some(d) => Some(d - {tx.id})
  }

  /** Disconnect transactions, last one first. */
  function DisconnectTxs(db: TxDb, txs: seq<Tx>): Option<TxDb>
    decreases |txs|
  {
    if txs == [] then Some(db) else
    match DisconnectTx(db, txs[|txs| - 1])
    case None => None
    case Some(d) => DisconnectTxs(d, txs[..|txs| - 1])
  }

  function Ids(txs: seq<Tx>): set<Hash> { set t | t in txs :: t.id }

  predicate UniqueIds(txs: seq<Tx>) {
    forall i, j :: 0 <= i < j < |txs| ==> txs[i].id != txs[j].id
  }

  // ------------------------------------------------------------------ marking

  /** d is db with the given marks written on exactly the given outpoints. */
  ghost predicate Marked(db: TxDb, d: TxDb, ops: seq<OutPoint>, mark: Option<DiskPos>) {
    && d.Keys == db.Keys
    && forall k :: k in db ==>
         && d[k].tx == db[k].tx && d[k].pos == db[k].pos && |d[k].spent| == |db[k].spent|
         && forall n :: 0 <= n < |db[k].spent| ==>
              d[k].spent[n] == if OutPoint(k, n) in ops then mark else db[k].spent[n]
  }

  lemma SnocMembers(ops: seq<OutPoint>)
    requires ops != []
    ensures forall op :: op in ops <==> op in ops[..|ops| - 1] || op == ops[|ops| - 1]
  {
    assert ops == ops[..|ops| - 1] + [ops[|ops| - 1]];
  }

  lemma {:induction false} SpendMarks(db: TxDb, vin: seq<OutPoint>, pos: DiskPos)
    requires SpendAll(db, vin, pos).Some?
    ensures Marked(db, SpendAll(db, vin, pos).value, vin, Some(pos))
    ensures forall op :: op in vin ==> CanSpend(db, op)
  {
    if vin != [] {
      SpendMarks(db, vin[..|vin| - 1], pos);
      SnocMembers(vin);
    }
  }

  lemma {:induction false} ReleaseMarks(db: TxDb, vin: seq<OutPoint>)
    ensures ReleaseAll(db, vin).Some? <==> forall op :: op in vin ==> InRange(db, op)
    ensures ReleaseAll(db, vin).Some? ==> Marked(db, ReleaseAll(db, vin).value, vin, None)
  {
    if vin != [] {
      ReleaseMarks(db, vin[..|vin| - 1]);
      SnocMembers(vin);
      assert vin[|vin| - 1] in vin;
    }
  }

  // ------------------------------------------------------ exactly what undo restores

  /** A fully spent entry that no transaction of the block re-creates is left alone by the block. */
  lemma {:induction false} SpentEntryKept(db: TxDb, block: Hash, txs: seq<Tx>, k: Hash)
    requires ConnectTxs(db, block, txs).Some?
    requires k in db && FullySpent(db[k]) && k !in Ids(txs)
    ensures k in ConnectTxs(db, block, txs).value
    ensures ConnectTxs(db, block, txs).value[k] == db[k]
  {
    if txs != [] {
      var init, t := txs[..|txs| - 1], txs[|txs| - 1];
      SpentEntryKept(db, block, init, k);
      var d := ConnectTxs(db, block, init).value;
      if !t.IsCoinBase() {
        SpendMarks(d, t.vin, DiskPos(block, |txs| - 1));
      }
    }
  }

  /** An entry missing from the start index and not created by the block stays missing. */
  lemma {:induction false} ConnectKeys(db: TxDb, block: Hash, txs: seq<Tx>)
    requires ConnectTxs(db, block, txs).Some?
    ensures ConnectTxs(db, block, txs).value.Keys == db.Keys + Ids(txs)
  {
    hide ConnectTx, Ids;
    if txs != [] {
      var init, t := txs[..|txs| - 1], txs[|txs| - 1];
      ConnectKeys(db, block, init);
      KeysAfter(db, ConnectTxs(db, block, init).value, t, DiskPos(block, |txs| - 1));
    }
    IdsSnoc(txs);
  }

  lemma IdsSnoc(txs: seq<Tx>)
    ensures Ids(txs) == if txs == [] then {} else Ids(txs[..|txs| - 1]) + {txs[|txs| - 1].id}
  {
    if txs != [] { assert txs == txs[..|txs| - 1] + [txs[|txs| - 1]]; }
  }

  lemma KeysAfter(base: TxDb, m: TxDb, t: Tx, pos: DiskPos)
    requires ConnectTx(base, m, t, pos).Some?
    ensures ConnectTx(base, m, t, pos).value.Keys == m.Keys + {t.id}
  {
    if !t.IsCoinBase() { SpendMarks(m, t.vin, pos); }
  }

  /** Marks written on unspent outputs and then cleared leave the entries as they were, also when
      fully spent entries went missing in between and a fresh entry was added. */
  lemma ClearedMarks(m: TxDb, d: TxDb, c: TxDb, r: TxDb, vin: seq<OutPoint>, pos: DiskPos, gone: set<Hash>)
    requires Marked(m, d, vin, Some(pos)) && forall op :: op in vin ==> CanSpend(m, op)
    requires c.Keys >= m.Keys - gone && forall k :: k in m && k !in gone ==> c[k] == d[k]
    requires Marked(c, r, vin, None)
    ensures forall k :: k in m && k !in gone ==> r[k] == m[k]
  {
    forall k | k in m && k !in gone ensures r[k] == m[k] {
      forall n | 0 <= n < |m[k].spent| ensures r[k].spent[n] == m[k].spent[n] {
        if OutPoint(k, n) in vin { assert CanSpend(m, OutPoint(k, n)); }
      }
      assert r[k].spent == m[k].spent;
    }
  }

  /** The entries of these ids are fully spent. */
  ghost predicate SpentWhere(db: TxDb, ids: set<Hash>) {
    forall k :: k in ids && k in db ==> FullySpent(db[k])
  }

  /** The outputs a transaction spends are of entries that are not fully spent, so they are still there. */
  lemma SpentNowhere(m: TxDb, d: TxDb, c: TxDb, vin: seq<OutPoint>, pos: DiskPos, gone: set<Hash>)
    requires Marked(m, d, vin, Some(pos)) && (forall op :: op in vin ==> CanSpend(m, op)) && SpentWhere(m, gone)
    requires c.Keys >= m.Keys - gone && forall k :: k in m && k !in gone ==> c[k] == d[k]
    ensures forall op :: op in vin ==> InRange(c, op)
  {
    forall op | op in vin ensures InRange(c, op) {
      assert CanSpend(m, op) && !FullySpent(m[op.hash]);
    }
  }

  /** Undoing one transaction from an index that already lost the fully spent entries `lost`. */
  lemma UndoOneTx(base: TxDb, m: TxDb, t: Tx, pos: DiskPos, lost: set<Hash>)
    requires ConnectTx(base, m, t, pos).Some?
    requires SpentWhere(m, lost + {t.id})
    ensures DisconnectTx(ConnectTx(base, m, t, pos).value - lost, t) == Some(m - (lost + {t.id}))
  {
    var c := ConnectTx(base, m, t, pos).value - lost;
    if t.IsCoinBase() {
      assert c - {t.id} == m - (lost + {t.id});
    } else {
      var d, gone := SpendAll(m, t.vin, pos).value, lost + {t.id};
      SpendMarks(m, t.vin, pos);
      assert c.Keys - {t.id} == m.Keys - gone && forall k :: k in m && k !in gone ==> c[k] == d[k];
      hide FullySpent, SpentWhere, SpendAll, ReleaseAll;
      SpentNowhere(m, d, c, t.vin, pos, gone);
      ReleaseMarks(c, t.vin);
      var r := ReleaseAll(c, t.vin).value;
      ClearedMarks(m, d, c, r, t.vin, pos, gone);
      hide Marked, CanSpend;
      assert r - {t.id} == m - gone;
    }
  }

  lemma IdsLast(txs: seq<Tx>)
    requires txs != [] && UniqueIds(txs)
    ensures var init, t := txs[..|txs| - 1], txs[|txs| - 1];
            Ids(txs) == Ids(init) + {t.id} && t.id !in Ids(init) && UniqueIds(init)
  {
    assert txs == txs[..|txs| - 1] + [txs[|txs| - 1]];
  }

  /** The ids of `lost` and of the last transaction are fully spent before that transaction. */
  lemma SpentBeforeLast(db: TxDb, block: Hash, txs: seq<Tx>, lost: set<Hash>)
    requires txs != [] && ConnectTxs(db, block, txs).Some? && UniqueIds(txs) && lost !! Ids(txs) && SpentWhere(db, lost)
    ensures var init, gone := txs[..|txs| - 1], lost + {txs[|txs| - 1].id};
            SpentWhere(db, gone) && ConnectTxs(db, block, init).Some? && SpentWhere(ConnectTxs(db, block, init).value, gone)
  {
    var init, gone := txs[..|txs| - 1], lost + {txs[|txs| - 1].id};
    var m := ConnectTxs(db, block, init).value;
    IdsLast(txs);
    ConnectKeys(db, block, init);
    assert SpentWhere(db, gone);
    hide FullySpent, ConnectTx, ConnectTxs, Ids;
    forall k | k in gone && k in m ensures FullySpent(m[k]) { SpentEntryKept(db, block, init, k); }
  }

  lemma {:induction false} UndoTxs(db: TxDb, block: Hash, txs: seq<Tx>, lost: set<Hash>)
    requires ConnectTxs(db, block, txs).Some? && UniqueIds(txs) && lost !! Ids(txs) && SpentWhere(db, lost)
    ensures DisconnectTxs(ConnectTxs(db, block, txs).value - lost, txs) == Some(db - (lost + Ids(txs)))
  {
    if txs == [] {
      assert lost + Ids(txs) == lost;
    } else {
      var init, t := txs[..|txs| - 1], txs[|txs| - 1];
      IdsLast(txs);
      SpentBeforeLast(db, block, txs, lost);
      hide ConnectTx, DisconnectTx, Ids, UniqueIds, SpentWhere;
      UndoOneTx(db, ConnectTxs(db, block, init).value, t, DiskPos(block, |txs| - 1), lost);
      UndoTxs(db, block, init, lost + {t.id});
      assert lost + {t.id} + Ids(init) == lost + Ids(txs);
    }
  }

  /** Disconnecting a block that was just connected always succeeds and gives back the index it was
      connected to, minus the (fully spent) entries whose ids the block had reused. */
  lemma DisconnectUndoesConnect(db: TxDb, block: Hash, txs: seq<Tx>)
    requires ConnectTxs(db, block, txs).Some? && UniqueIds(txs)
    ensures DisconnectTxs(ConnectTxs(db, block, txs).value, txs) == Some(db - Ids(txs))
    ensures DisconnectTxs(ConnectTxs(db, block, txs).value, txs) == Some(db) <==> db.Keys !! Ids(txs)
  {
    UndoTxs(db, block, txs, {});
    var c := ConnectTxs(db, block, txs).value;
    assert c - {} == c && {} + Ids(txs) == Ids(txs);
    if db.Keys !! Ids(txs) {
      assert db - Ids(txs) == db;
    } else {
      var k :| k in db && k in Ids(txs);
      assert k !in db - Ids(txs);
    }
  }

  /** Exact restoration fails on a reused id: a fully spent entry is overwritten and then erased. */
  lemma ReusedIdIsLost()
    ensures var t := Tx(7, 0, [OutPoint(0, NULL_INDEX)], [TxOut(5000, [1])]);
            var db := map[7 := TxIndex(t, DiskPos(1, 0), [Some(DiskPos(2, 1))])];
            && ConnectTxs(db, 3, [t]).Some?
            && DisconnectTxs(ConnectTxs(db, 3, [t]).value, [t]) == Some(map[])
  {
    var t := Tx(7, 0, [OutPoint(0, NULL_INDEX)], [TxOut(5000, [1])]);
    var db := map[7 := TxIndex(t, DiskPos(1, 0), [Some(DiskPos(2, 1))])];
    assert t.IsCoinBase();
    assert ConnectTxs(db, 3, [t][..0]) == Some(db);
    assert ConnectTxs(db, 3, [t]) == ConnectTx(db, db, t, DiskPos(3, 0));
    DisconnectUndoesConnect(db, 3, [t]);
    assert t.id in Ids([t]);
    assert db - Ids([t]) == map[];
  }

  // ------------------------------------------------ an index that lost fully spent entries

  /** db is r except that some fully spent entries may be missing. */
  ghost predicate Covers(db: TxDb, r: TxDb) {
    && (forall k :: k in db ==> k in r && db[k] == r[k])
    && (forall k :: k in r && k !in db ==> FullySpent(r[k]))
  }

  lemma {:induction false} SpendCovered(db: TxDb, r: TxDb, vin: seq<OutPoint>, pos: DiskPos)
    requires Covers(db, r) && SpendAll(db, vin, pos).Some?
    ensures SpendAll(r, vin, pos).Some?
    ensures Covers(SpendAll(db, vin, pos).value, SpendAll(r, vin, pos).value)
  {
    if vin != [] {
      SpendCovered(db, r, vin[..|vin| - 1], pos);
    }
  }

  /** What connects to an index connects to every fuller one, with covering results. */
  lemma {:induction false} ConnectCovered(db: TxDb, r: TxDb, block: Hash, txs: seq<Tx>)
    requires Covers(db, r) && ConnectTxs(db, block, txs).Some?
    ensures ConnectTxs(r, block, txs).Some?
    ensures Covers(ConnectTxs(db, block, txs).value, ConnectTxs(r, block, txs).value)
  {
    if txs != [] {
      var init, t := txs[..|txs| - 1], txs[|txs| - 1];
      ConnectCovered(db, r, block, init);
      if !t.IsCoinBase() {
        SpendCovered(ConnectTxs(db, block, init).value, ConnectTxs(r, block, init).value, t.vin,
                     DiskPos(block, |txs| - 1));
      }
    }
  }

  lemma DisconnectOneCovered(base: TxDb, m: TxDb, t: Tx, pos: DiskPos, d: TxDb)
    requires ConnectTx(base, m, t, pos).Some? && (t.id in m ==> FullySpent(m[t.id]))
    requires Covers(d, ConnectTx(base, m, t, pos).value)
    requires DisconnectTx(d, t).Some?
    ensures Covers(DisconnectTx(d, t).value, m)
  {
    var c := ConnectTx(base, m, t, pos).value;
    var e := DisconnectTx(d, t).value;
    if !t.IsCoinBase() {
      var s := SpendAll(m, t.vin, pos).value;
      SpendMarks(m, t.vin, pos);
      ReleaseMarks(d, t.vin);
      var r := ReleaseAll(d, t.vin).value;
      var gone := (m.Keys - d.Keys) + {t.id};
      ClearedMarks(m, s, d, r, t.vin, pos, gone);
      forall k | k in m && k !in e ensures FullySpent(m[k]) {
        if k != t.id {
          forall n | 0 <= n < |m[k].spent| ensures m[k].spent[n] == s[k].spent[n] {
            assert OutPoint(k, n) in t.vin ==> InRange(d, OutPoint(k, n));
          }
          assert FullySpent(c[k]);
        }
      }
    }
  }

  /** Whatever a successful disconnect of a connected block leaves covers the index the block was
      connected to, also when the index had already lost fully spent entries. */
  lemma {:induction false} DisconnectCovered(r: TxDb, block: Hash, txs: seq<Tx>, d: TxDb)
    requires ConnectTxs(r, block, txs).Some? && UniqueIds(txs)
    requires Covers(d, ConnectTxs(r, block, txs).value)
    requires DisconnectTxs(d, txs).Some?
    ensures Covers(DisconnectTxs(d, txs).value, r)
  {
    if txs != [] {
      var init, t := txs[..|txs| - 1], txs[|txs| - 1];
      var m := ConnectTxs(r, block, init).value;
      ConnectKeys(r, block, init);
      assert t.id !in Ids(init);
      if t.id in m { SpentEntryKept(r, block, init, t.id); }
      DisconnectOneCovered(r, m, t, DiskPos(block, |txs| - 1), d);
      DisconnectCovered(r, block, init, DisconnectTx(d, t).value);
    }
  }
}

/** What it means for a block to connect, in plain terms: which inputs may be spent, what a transaction may pay out, by
    how much the money supply may rise, and that rewards are only spent once they are mature. */
module Acceptance {
  import opened Basics
  import opened Ledger
  import opened Sequences
  import opened Supply
  import opened BlockTree
  import opened Validation
  import opened Replay

  // ------------------------------------------------------------ one transaction

  /** Inputs can be spent one after the other, if and only if each can be spent and no two are the same. */
  lemma {:induction false} SpendableExactly(db: TxDb, vin: seq<OutPoint>, pos: DiskPos)
    ensures SpendAll(db, vin, pos).Some? <==> (forall i :: 0 <= i < |vin| ==> CanSpend(db, vin[i])) && Distinct(vin)
  {
    if vin != [] {
      var init, op := vin[..|vin| - 1], vin[|vin| - 1];
      SpendableExactly(db, init, pos);
      assert vin == init + [op];
      if SpendAll(db, init, pos).Some? {
        SpendMarks(db, init, pos);
        LaterSpend(db, SpendAll(db, init, pos).value, init, op, pos);
      }
    }
  }

  lemma LaterSpend(db: TxDb, d: TxDb, vin: seq<OutPoint>, op: OutPoint, pos: DiskPos)
    requires Marked(db, d, vin, Some(pos))
    ensures CanSpend(d, op) <==> CanSpend(db, op) && op !in vin
  {
    if InRange(db, op) { assert OutPoint(op.hash, op.n) == op; }
  }

  /** Input i refers to an existing unspent output, of a reward only if its block is not among the closest ancestors,
      not younger than the transaction, in money range with the sum so far, and passes its script where scripts are
      checked. */
  ghost predicate MaySpend(rules: Rules, index: Index, genesis: Hash, h: Hash, view: TxDb, tx: Tx, i: nat)
    requires TreeOk(index, genesis) && h in index && i < |tx.vin|
  {
    && tx.vin[i].hash in view
    && var e, n := view[tx.vin[i].hash], tx.vin[i].n;
       && n < |e.tx.vout| && n < |e.spent| && e.spent[n] == None
       && (e.tx.IsCoinBase() || e.tx.IsCoinStake() ==>
             !(&& e.pos.block in index && Ancestor(index, genesis, e.pos.block, h)
               && index[h].height - index[e.pos.block].height < rules.maturity))
       && e.tx.time <= tx.time
       && 0 <= e.tx.vout[n].value <= MAX_MONEY && 0 <= ValueIn(view, tx.vin[..i + 1]) <= MAX_MONEY
       && (rules.scriptChecks(index[h].height) ==> rules.scriptOk(e.tx, tx, i))
  }

  lemma MaySpendIs(rules: Rules, index: Index, genesis: Hash, h: Hash, view: TxDb, tx: Tx, i: nat)
    requires TreeOk(index, genesis) && h in index && i < |tx.vin|
    ensures MaySpend(rules, index, genesis, h, view, tx, i) <==>
              && InputOk(rules, index, genesis, h, view, tx, i) && ScriptOk(rules, index[h].height, view, tx, i)
              && CanSpend(view, tx.vin[i])
  {
    hide TreeOk, Ancestor, ValueIn;
  }

  /** A transaction is accepted if and only if its id is unused or that of a fully spent transaction and, unless it is a
      coinbase, its inputs are different from each other and may be spent, and a coinstake gains no more than its
      reward allows, while any other transaction pays out no more than it takes in and leaves its fee. */
  lemma AcceptedExactly(rules: Rules, index: Index, genesis: Hash, h: Hash, db: TxDb, view: TxDb, tx: Tx, pos: DiskPos)
    requires TreeOk(index, genesis) && h in index
    ensures TxAccepted(rules, index, genesis, h, db, view, tx, pos) <==>
              && (tx.id in db ==> forall n :: 0 <= n < |db[tx.id].spent| ==> db[tx.id].spent[n].Some?)
              && (!tx.IsCoinBase() ==>
                  && (forall i, j :: 0 <= i < j < |tx.vin| ==> tx.vin[i] != tx.vin[j])
                  && (forall i :: 0 <= i < |tx.vin| ==> MaySpend(rules, index, genesis, h, view, tx, i))
                  && var valueIn, valueOut := ValueIn(view, tx.vin), ValueOut(tx.vout);
                     if tx.IsCoinStake() then
                       var reward := rules.stakeReward(db, tx, index[h].block);
                       reward.Some? && valueOut <= valueIn + reward.value - rules.minFee(tx) + 1000
                     else
                       valueOut <= valueIn && rules.minFee(tx) <= valueIn - valueOut <= MAX_MONEY)
  {
    hide TreeOk, ValueIn, ValueOut, SpendAll, MaySpend, InputOk, ScriptOk, CanSpend;
    SpendableExactly(view, tx.vin, pos);
    forall i | 0 <= i < |tx.vin|
      ensures MaySpend(rules, index, genesis, h, view, tx, i) <==>
                && InputOk(rules, index, genesis, h, view, tx, i) && ScriptOk(rules, index[h].height, view, tx, i)
                && CanSpend(view, tx.vin[i])
    {
      MaySpendIs(rules, index, genesis, h, view, tx, i);
    }
  }

  // ------------------------------------------------------------ the transactions of a block

  lemma AcceptedAt(rules: Rules, index: Index, genesis: Hash, h: Hash, db: TxDb, i: nat)
    requires TreeOk(index, genesis) && h in index && Connects(rules, index, genesis, h, db) && i < |index[h].block.vtx|
    ensures var vtx := index[h].block.vtx;
            ConnectTxs(db, h, vtx[..i]).Some? && TxAccepted(rules, index, genesis, h, db, ConnectTxs(db, h, vtx[..i]).value, vtx[i], DiskPos(h, i))
  {
    hide TreeOk, TxAccepted, BlockShapeOk, RewardOk, ConnectTx;
    var vtx := index[h].block.vtx;
    AcceptedPrefix(rules, index, genesis, h, db, vtx, i + 1);
    assert vtx[..i + 1][..i] == vtx[..i];
  }

  /** What a transaction of a block that connects pays out, against what it takes in from the index before it. */
  lemma AmountsOfBlock(rules: Rules, index: Index, genesis: Hash, h: Hash, db: TxDb, i: nat)
    requires TreeOk(index, genesis) && h in index && Connects(rules, index, genesis, h, db) && i < |index[h].block.vtx|
    ensures var vtx := index[h].block.vtx;
            && ConnectTxs(db, h, vtx[..i]).Some?
            && var tx, view := vtx[i], ConnectTxs(db, h, vtx[..i]).value;
               && TxAccepted(rules, index, genesis, h, db, view, tx, DiskPos(h, i))
               && (!tx.IsCoinBase() && !tx.IsCoinStake() ==>
                     ValueOut(tx.vout) <= ValueIn(view, tx.vin) && ValueIn(view, tx.vin) - ValueOut(tx.vout) >= rules.minFee(tx))
               && (!tx.IsCoinBase() && tx.IsCoinStake() ==>
                     && rules.stakeReward(db, tx, index[h].block).Some?
                     && ValueOut(tx.vout) - ValueIn(view, tx.vin)
                        <= rules.stakeReward(db, tx, index[h].block).value - rules.minFee(tx) + MIN_TX_FEE)
  {
    hide TreeOk, TxAccepted, ValueIn, ValueOut, Connects, ConnectTxs;
    var vtx := index[h].block.vtx;
    AcceptedAt(rules, index, genesis, h, db, i);
    AcceptedExactly(rules, index, genesis, h, db, ConnectTxs(db, h, vtx[..i]).value, vtx[i], DiskPos(h, i));
  }

  /** A transaction that pays out more than it takes in, or leaves less than its fee, makes the block fail. */
  lemma OverpaidFails(rules: Rules, index: Index, genesis: Hash, h: Hash, db: TxDb, i: nat)
    requires TreeOk(index, genesis) && h in index && i < |index[h].block.vtx|
    requires ConnectTxs(db, h, index[h].block.vtx[..i]).Some?
    requires var tx, view := index[h].block.vtx[i], ConnectTxs(db, h, index[h].block.vtx[..i]).value;
             && !tx.IsCoinBase() && !tx.IsCoinStake()
             && (ValueOut(tx.vout) > ValueIn(view, tx.vin) || ValueIn(view, tx.vin) - ValueOut(tx.vout) < rules.minFee(tx))
    ensures !Connects(rules, index, genesis, h, db)
  {
    hide TreeOk, ConnectTxs, ValueIn, ValueOut;
    if Connects(rules, index, genesis, h, db) { AmountsOfBlock(rules, index, genesis, h, db, i); }
  }

  /** What a block may add to the supply: what its coinbase pays, and what its coinstakes may gain. */
  function Allowance(rules: Rules, db: TxDb, b: Block, txs: seq<Tx>): int {
    if txs == [] then 0 else
    var tx := txs[|txs| - 1];
    Allowance(rules, db, b, txs[..|txs| - 1]) + Allowed(rules, db, b, tx)
  }

  function Allowed(rules: Rules, db: TxDb, b: Block, tx: Tx): int {
    if tx.IsCoinBase() then ValueOut(tx.vout)
      else if tx.IsCoinStake() then
        match rules.stakeReward(db, tx, b)
        case None => 0
        case Some(r) => r - rules.minFee(tx) + MIN_TX_FEE
      else 0
  }

  lemma {:induction false} SumsUpTo(rules: Rules, index: Index, genesis: Hash, h: Hash, db: TxDb, n: nat)
    requires TreeOk(index, genesis) && h in index && Connects(rules, index, genesis, h, db) && n <= |index[h].block.vtx|
    ensures var txs := index[h].block.vtx[..n];
            && ConnectTxs(db, h, txs).Some? && BlockFees(db, h, txs) >= 0
            && BlockValueOut(txs) - BlockValueIn(db, h, txs) <= Allowance(rules, db, index[h].block, txs)
  {
    hide TreeOk, TxAccepted, Connects, ConnectTx, ConnectTxs, ValueIn, ValueOut, BlockFees, BlockValueOut, BlockValueIn, Allowance;
    var vtx := index[h].block.vtx;
    if n == 0 {
      assert vtx[..0] == [];
      NoSums(rules, db, h, index[h].block);
    } else {
      SumsUpTo(rules, index, genesis, h, db, n - 1);
      AmountsOfBlock(rules, index, genesis, h, db, n - 1);
      assert vtx[..n][..n - 1] == vtx[..n - 1];
      NextAccepted(rules, index, genesis, h, db, ConnectTxs(db, h, vtx[..n - 1]).value, vtx[n - 1], DiskPos(h, n - 1));
      NextSums(rules, db, h, index[h].block, vtx[..n]);
    }
  }

  lemma NoSums(rules: Rules, db: TxDb, h: Hash, b: Block)
    ensures ConnectTxs(db, h, []).Some? && BlockFees(db, h, []) == 0
    ensures BlockValueOut([]) - BlockValueIn(db, h, []) == 0 == Allowance(rules, db, b, [])
  {
  }

  /** What the last transaction adds to the sums of a block. */
  lemma NextSums(rules: Rules, db: TxDb, h: Hash, b: Block, txs: seq<Tx>)
    requires txs != [] && ConnectTxs(db, h, txs[..|txs| - 1]).Some?
    requires ConnectTx(db, ConnectTxs(db, h, txs[..|txs| - 1]).value, txs[|txs| - 1], DiskPos(h, |txs| - 1)).Some?
    ensures ConnectTxs(db, h, txs).Some?
    ensures var init, tx := txs[..|txs| - 1], txs[|txs| - 1];
            var view := ConnectTxs(db, h, init).value;
            var gain := ValueOut(tx.vout) - if tx.IsCoinBase() then 0 else ValueIn(view, tx.vin);
            && BlockFees(db, h, txs) == BlockFees(db, h, init) - (if tx.IsCoinBase() || tx.IsCoinStake() then 0 else gain)
            && BlockValueOut(txs) - BlockValueIn(db, h, txs) == BlockValueOut(init) - BlockValueIn(db, h, init) + gain
            && Allowance(rules, db, b, txs) == Allowance(rules, db, b, init) + Allowed(rules, db, b, tx)
  {
    hide ConnectTx, ValueIn, ValueOut;
  }

  lemma NextAccepted(rules: Rules, index: Index, genesis: Hash, h: Hash, db: TxDb, view: TxDb, tx: Tx, pos: DiskPos)
    requires TreeOk(index, genesis) && h in index && TxAccepted(rules, index, genesis, h, db, view, tx, pos)
    ensures ConnectTx(db, view, tx, pos).Some?
  {
    hide TreeOk;
  }

  /** No block destroys less than nothing in fees, and the value of the unspent outputs rises by no more than what its
      coinbase pays and its coinstakes may gain. */
  lemma SupplyCapped(rules: Rules, index: Index, genesis: Hash, h: Hash, db: TxDb)
    requires TreeOk(index, genesis) && h in index && Connects(rules, index, genesis, h, db)
    ensures ConnectTxs(db, h, index[h].block.vtx).Some? && BlockFees(db, h, index[h].block.vtx) >= 0
    ensures Total(ConnectTxs(db, h, index[h].block.vtx).value) - Total(db) <= Allowance(rules, db, index[h].block, index[h].block.vtx)
  {
    var vtx := index[h].block.vtx;
    SumsUpTo(rules, index, genesis, h, db, |vtx|);
    assert vtx[..|vtx|] == vtx;
    ConnectTotal(db, h, vtx);
  }

  lemma {:induction false} NoCoinstakes(rules: Rules, db: TxDb, b: Block, n: nat)
    requires 1 <= n <= |b.vtx| && b.vtx[0].IsCoinBase() && forall i :: 1 <= i < |b.vtx| ==> !b.vtx[i].IsCoinBase()
    ensures (forall i :: 1 <= i < n ==> !b.vtx[i].IsCoinStake()) ==> Allowance(rules, db, b, b.vtx[..n]) == ValueOut(b.vtx[0].vout)
    ensures n >= 2 && (forall i :: 2 <= i < n ==> !b.vtx[i].IsCoinStake()) ==>
              Allowance(rules, db, b, b.vtx[..n]) == Allowance(rules, db, b, b.vtx[..2])
  {
    assert b.vtx[..n][..n - 1] == b.vtx[..n - 1];
    if n == 1 {
      assert b.vtx[..0] == [];
    } else {
      NoCoinstakes(rules, db, b, n - 1);
    }
  }

  /** A proof-of-stake block raises the supply by no more than its coinstake's reward allows; a proof-of-work block
      without coinstakes by no more than the limit of its coinbase. */
  lemma SupplyCappedByKind(rules: Rules, index: Index, genesis: Hash, h: Hash, db: TxDb)
    requires TreeOk(index, genesis) && h in index && Connects(rules, index, genesis, h, db)
    ensures ConnectTxs(db, h, index[h].block.vtx).Some?
    ensures var b := index[h].block;
            var rise := Total(ConnectTxs(db, h, b.vtx).value) - Total(db);
            && (|b.vtx| > 1 && b.vtx[1].IsCoinStake() ==>
                  rules.stakeReward(db, b.vtx[1], b).Some?
                  && rise <= rules.stakeReward(db, b.vtx[1], b).value - rules.minFee(b.vtx[1]) + MIN_TX_FEE)
            && ((forall i :: 1 <= i < |b.vtx| ==> !b.vtx[i].IsCoinStake()) ==> rise <= rules.coinbaseLimit(b))
  {
    hide TreeOk, TxsAccepted, TxShapeOk, Total, ConnectTxs, Allowance, ValueOut, ValueIn;
    var b := index[h].block;
    SupplyCapped(rules, index, genesis, h, db);
    NoCoinstakes(rules, db, b, |b.vtx|);
    assert b.vtx[..|b.vtx|] == b.vtx;
    if |b.vtx| > 1 && b.vtx[1].IsCoinStake() {
      AmountsOfBlock(rules, index, genesis, h, db, 1);
      FirstTwo(rules, db, b);
    }
  }

  lemma FirstTwo(rules: Rules, db: TxDb, b: Block)
    requires |b.vtx| > 1 && b.vtx[0].IsCoinBase() && !b.vtx[1].IsCoinBase() && b.vtx[1].IsCoinStake()
    requires |b.vtx[0].vout| == 1 && b.vtx[0].vout[0].IsEmpty() && rules.stakeReward(db, b.vtx[1], b).Some?
    ensures Allowance(rules, db, b, b.vtx[..2]) == rules.stakeReward(db, b.vtx[1], b).value - rules.minFee(b.vtx[1]) + MIN_TX_FEE
  {
    var vout := b.vtx[0].vout;
    assert vout[..0] == [] && ValueOut([]) == 0;
    assert ValueOut(vout) == 0;
    assert b.vtx[..2][..1] == b.vtx[..1] && b.vtx[..1][..0] == [];
    assert Allowance(rules, db, b, []) == 0;
    assert Allowance(rules, db, b, b.vtx[..1]) == 0;
  }

  lemma {:induction false} PartialSums(vout: seq<TxOut>, n: nat)
    requires n <= |vout| && forall i :: 0 <= i < |vout| ==> vout[i].value >= 0
    ensures 0 <= ValueOut(vout[..n]) <= ValueOut(vout)
    decreases |vout|
  {
    if n == |vout| {
      assert vout[..n] == vout;
      if n > 0 { PartialSums(vout[..n - 1], n - 1); }
    } else {
      PartialSums(vout[..|vout| - 1], n);
      assert vout[..|vout| - 1][..n] == vout[..n];
    }
  }

  /** Outputs in range, empty ones only in coinbases and coinstakes; the sum in range; no input twice, no null one but a
      coinbase's. The running sums the code tests need no mention: they follow. */
  predicate WellShaped(tx: Tx) {
    && tx.vin != [] && tx.vout != []
    && (forall n :: 0 <= n < |tx.vout| ==>
          || (tx.vout[n].value == 0 && tx.vout[n].script == [] && (tx.IsCoinBase() || tx.IsCoinStake()))
          || 1000 <= tx.vout[n].value <= MAX_MONEY)
    && ValueOut(tx.vout) <= MAX_MONEY
    && (forall i, j :: 0 <= i < j < |tx.vin| ==> tx.vin[i] != tx.vin[j])
    && (tx.IsCoinBase() || forall n :: 0 <= n < |tx.vin| ==> !(tx.vin[n].hash == 0 && tx.vin[n].n == NULL_INDEX))
  }

  lemma WellShapedIs(tx: Tx)
    ensures TxShapeOk(tx) <==> WellShaped(tx)
  {
    hide ValueOut;
    assert tx.vout[..|tx.vout|] == tx.vout;
    if WellShaped(tx) {
      forall i | 0 <= i <= |tx.vout| ensures MoneyRange(ValueOut(tx.vout[..i])) { PartialSums(tx.vout, i); }
    }
  }

  /** A block connects if and only if its first transaction is its only coinbase, all are well shaped, no later than the
      block and have different ids, its coinbase pays what it may, the tests that are not modelled pass, and every
      transaction is accepted in the index that the ones before it leave. */
  lemma ConnectsExactly(rules: Rules, index: Index, genesis: Hash, h: Hash, db: TxDb)
    requires TreeOk(index, genesis) && h in index
    ensures var b := index[h].block;
            Connects(rules, index, genesis, h, db) <==>
              && b.vtx != []
              && (forall i :: 0 <= i < |b.vtx| ==> (b.vtx[i].IsCoinBase() <==> i == 0) && WellShaped(b.vtx[i]) && b.vtx[i].time <= b.time)
              && (forall i, j :: 0 <= i < j < |b.vtx| ==> b.vtx[i].id != b.vtx[j].id)
              && (if |b.vtx| > 1 && b.vtx[1].IsCoinStake()
                  then |b.vtx[0].vout| == 1 && ValueOut(b.vtx[0].vout) == 0 && b.vtx[0].vout[0].script == []
                       && forall i :: 1 < i < |b.vtx| ==> !b.vtx[i].IsCoinStake()
                  else ValueOut(b.vtx[0].vout) <= rules.coinbaseLimit(b))
              && rules.policyOk(db, b)
              && forall i :: 0 <= i < |b.vtx| ==> AcceptedIn(rules, index, genesis, h, db, i)
  {
    hide TreeOk, TxsAccepted, TxShapeOk, WellShaped, ValueOut, AcceptedIn;
    var b := index[h].block;
    forall i | 0 <= i < |b.vtx| ensures TxShapeOk(b.vtx[i]) <==> WellShaped(b.vtx[i]) { WellShapedIs(b.vtx[i]); }
    if b.vtx != [] && |b.vtx[0].vout| == 1 { OneValue(b.vtx[0].vout); }
    TxsAcceptedExactly(rules, index, genesis, h, db, |b.vtx|);
    assert b.vtx[..|b.vtx|] == b.vtx;
  }

  lemma OneValue(vout: seq<TxOut>)
    requires |vout| == 1
    ensures ValueOut(vout) == vout[0].value
  {
    assert vout[..0] == [];
  }

  /** Transaction i is accepted in the index that the ones before it leave. */
  ghost predicate AcceptedIn(rules: Rules, index: Index, genesis: Hash, h: Hash, db: TxDb, i: nat)
    requires TreeOk(index, genesis) && h in index && i < |index[h].block.vtx|
  {
    var vtx := index[h].block.vtx;
    && ConnectTxs(db, h, vtx[..i]).Some?
    && TxAccepted(rules, index, genesis, h, db, ConnectTxs(db, h, vtx[..i]).value, vtx[i], DiskPos(h, i))
  }

  lemma {:induction false} TxsAcceptedExactly(rules: Rules, index: Index, genesis: Hash, h: Hash, db: TxDb, n: nat)
    requires TreeOk(index, genesis) && h in index && n <= |index[h].block.vtx|
    ensures TxsAccepted(rules, index, genesis, h, db, index[h].block.vtx[..n]) <==>
              forall i :: 0 <= i < n ==> AcceptedIn(rules, index, genesis, h, db, i)
  {
    hide TreeOk, TxAccepted, ConnectTxs;
    if n > 0 {
      TxsAcceptedExactly(rules, index, genesis, h, db, n - 1);
      var vtx := index[h].block.vtx;
      var txs := vtx[..n];
      assert txs[..|txs| - 1] == vtx[..n - 1] && txs[|txs| - 1] == vtx[n - 1];
      assert TxsAccepted(rules, index, genesis, h, db, txs) <==>
               TxsAccepted(rules, index, genesis, h, db, vtx[..n - 1]) && AcceptedIn(rules, index, genesis, h, db, n - 1);
    } else {
      assert index[h].block.vtx[..0] == [];
    }
  }

  // ------------------------------------------------------------ where transactions are recorded

  /** The entry of id k is that of a transaction of a block of the path, at its place in the block. */
  ghost predicate RecordedIn(index: Index, path: seq<Hash>, k: Hash, e: TxIndex) {
    && e.pos.block in path && e.pos.block in index
    && e.pos.slot < |index[e.pos.block].block.vtx| && index[e.pos.block].block.vtx[e.pos.slot] == e.tx && e.tx.id == k
  }

  ghost predicate AllRecorded(index: Index, path: seq<Hash>, db: TxDb) {
    forall k :: k in db ==> RecordedIn(index, path, k, db[k])
  }

  /** Connecting the first n transactions of a block records those of the block, and keeps the other records. */
  lemma {:induction false} BlockRecorded(index: Index, path: seq<Hash>, h: Hash, db: TxDb, n: nat)
    requires h in index && n <= |index[h].block.vtx| && AllRecorded(index, path, db)
    requires ConnectTxs(db, h, index[h].block.vtx[..n]).Some?
    ensures AllRecorded(index, path + [h], ConnectTxs(db, h, index[h].block.vtx[..n]).value)
  {
    var vtx := index[h].block.vtx;
    if n == 0 {
      assert vtx[..0] == [];
    } else {
      assert vtx[..n][..n - 1] == vtx[..n - 1];
      BlockRecorded(index, path, h, db, n - 1);
      var d := ConnectTxs(db, h, vtx[..n - 1]).value;
      assert ConnectTxs(db, h, vtx[..n]) == ConnectTx(db, d, vtx[n - 1], DiskPos(h, n - 1));
      hide ConnectTxs, AllRecorded;
      TxRecorded(index, path + [h], h, db, d, n - 1);
    }
  }

  lemma TxRecorded(index: Index, path: seq<Hash>, h: Hash, base: TxDb, d: TxDb, i: nat)
    requires h in index && h in path && i < |index[h].block.vtx| && AllRecorded(index, path, d)
    requires ConnectTx(base, d, index[h].block.vtx[i], DiskPos(h, i)).Some?
    ensures AllRecorded(index, path, ConnectTx(base, d, index[h].block.vtx[i], DiskPos(h, i)).value)
  {
    var tx := index[h].block.vtx[i];
    if !tx.IsCoinBase() { SpendMarks(d, tx.vin, DiskPos(h, i)); }
  }

  lemma {:induction false} ReplayRecorded(index: Index, path: seq<Hash>)
    requires Indexed(index, path) && ReplayPath(index, path).Some?
    ensures AllRecorded(index, path, ReplayPath(index, path).value)
  {
    if |path| > 1 {
      var init, h := path[..|path| - 1], path[|path| - 1];
      ReplayRecorded(index, init);
      var vtx := index[h].block.vtx;
      assert vtx[..|vtx|] == vtx && init + [h] == path;
      hide AllRecorded, ConnectTxs;
      BlockRecorded(index, init, h, ReplayPath(index, init).value, |vtx|);
    }
  }

  /** Rewards are only spent when mature: in a block that connects to a database at the path to its parent, every input
      that spends the output of a coinbase or a coinstake spends it of a block that is an ancestor, holds that
      transaction, and is at least the maturity lower. */
  lemma MatureSpends(rules: Rules, index: Index, genesis: Hash, h: Hash, b: Hash, supply: map<Hash, int>, db: TxDb, i: nat, j: nat)
    requires TreeOk(index, genesis) && h in index && b in index && index[h].prev == Some(b)
    requires At(index, Path(index, genesis, b), supply, db) && Connects(rules, index, genesis, h, db)
    requires i < |index[h].block.vtx| && !index[h].block.vtx[i].IsCoinBase() && j < |index[h].block.vtx[i].vin|
    ensures var tx := index[h].block.vtx[i];
            && ConnectTxs(db, h, index[h].block.vtx[..i]).Some?
            && var view := ConnectTxs(db, h, index[h].block.vtx[..i]).value;
               && tx.vin[j].hash in view
               && var e := view[tx.vin[j].hash];
                  && e.pos.block in index && Ancestor(index, genesis, e.pos.block, h)
                  && e.pos.slot < |index[e.pos.block].block.vtx| && index[e.pos.block].block.vtx[e.pos.slot] == e.tx
                  && (e.tx.IsCoinBase() || e.tx.IsCoinStake() ==> index[h].height - index[e.pos.block].height >= rules.maturity)
  {
    var path, vtx := Path(index, genesis, b), index[h].block.vtx;
    DatabaseRecorded(index, path, supply, db);
    AmountsOfBlock(rules, index, genesis, h, db, i);
    BlockRecorded(index, path, h, db, i);
    assert Path(index, genesis, h) == path + [h];
    var view := ConnectTxs(db, h, vtx[..i]).value;
    hide TreeOk, Path, ConnectTxs, Connects, At, TxAccepted, ValueIn, ValueOut;
    AcceptedExactly(rules, index, genesis, h, db, view, vtx[i], DiskPos(h, i));
    assert MaySpend(rules, index, genesis, h, view, vtx[i], j);
    assert RecordedIn(index, path + [h], vtx[i].vin[j].hash, view[vtx[i].vin[j].hash]);
  }

  lemma DatabaseRecorded(index: Index, path: seq<Hash>, supply: map<Hash, int>, db: TxDb)
    requires At(index, path, supply, db)
    ensures AllRecorded(index, path, db)
  {
    ReplayRecorded(index, path);
    hide ReplayPath;
  }

  /** After a block connects, the transactions it holds are recorded under its own hash and their places. */
  lemma {:induction false} NewEntriesRecorded(db: TxDb, h: Hash, txs: seq<Tx>, i: nat)
    requires ConnectTxs(db, h, txs).Some? && UniqueIds(txs) && i < |txs|
    ensures var d := ConnectTxs(db, h, txs).value;
            txs[i].id in d && d[txs[i].id].tx == txs[i] && d[txs[i].id].pos.block == h && d[txs[i].id].pos.slot == i
  {
    var init, t := txs[..|txs| - 1], txs[|txs| - 1];
    var d := ConnectTxs(db, h, init).value;
    if !t.IsCoinBase() { SpendMarks(d, t.vin, DiskPos(h, |txs| - 1)); }
    if i < |init| { NewEntriesRecorded(db, h, init, i); }
  }
}

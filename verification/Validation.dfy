/** Which blocks connect: FetchInputs, ConnectInputs and the transaction loop of ConnectBlock, which
    work through a map of queued index changes, proved against one-at-a-time index updates. */
module Validation {
  import opened Basics
  import opened Ledger
  import opened Supply
  import opened BlockTree

  const MIN_TX_FEE: int := 1000
  const MIN_TXOUT_AMOUNT: int := MIN_TX_FEE

  /** The tests whose code is not modelled: scripts, fee and reward schedules, and (policyOk) the
      proof-of-work, timestamp, size, merkle root and signature-operation tests of a block. */
  datatype Rules = Rules(
    policyOk: (TxDb, Block) -> bool,
    scriptOk: (Tx, Tx, nat) -> bool,
    scriptChecks: nat -> bool,
    minFee: Tx -> int,
    stakeReward: (TxDb, Tx, Block) -> Option<int>,
    coinbaseLimit: Block -> int,
    maturity: nat)

  // ------------------------------------------------------------ context-free tests

  predicate TxShapeOk(tx: Tx) {
    && tx.vin != [] && tx.vout != []
    && (forall i :: 0 <= i < |tx.vout| ==>
          if tx.vout[i].IsEmpty() then tx.IsCoinBase() || tx.IsCoinStake()
          else MIN_TXOUT_AMOUNT <= tx.vout[i].value <= MAX_MONEY)
    && (forall i :: 0 <= i <= |tx.vout| ==> MoneyRange(ValueOut(tx.vout[..i])))
    && (forall i, j :: 0 <= i < j < |tx.vin| ==> tx.vin[i] != tx.vin[j])
    && (!tx.IsCoinBase() ==> forall i :: 0 <= i < |tx.vin| ==> !tx.vin[i].IsNull())
  }

  predicate BlockShapeOk(b: Block) {
    && b.vtx != [] && b.vtx[0].IsCoinBase()
    && (forall i :: 1 <= i < |b.vtx| ==> !b.vtx[i].IsCoinBase())
    && (forall i :: 0 <= i < |b.vtx| ==> TxShapeOk(b.vtx[i]) && b.vtx[i].time <= b.time)
    && UniqueIds(b.vtx)
  }

  predicate IsStakeBlock(b: Block) { |b.vtx| > 1 && b.vtx[1].IsCoinStake() }

  /** The coinbase of a proof-of-stake block pays nothing, and there is one coinstake; that of a proof-of-work block
      pays at most the limit. */
  predicate RewardOk(rules: Rules, b: Block)
    requires b.vtx != []
  {
    if IsStakeBlock(b) then
      && |b.vtx[0].vout| == 1 && b.vtx[0].vout[0].IsEmpty()
      && forall i :: 2 <= i < |b.vtx| ==> !b.vtx[i].IsCoinStake()
    else ValueOut(b.vtx[0].vout) <= rules.coinbaseLimit(b)
  }

  lemma ShapeNonEmpty(b: Block)
    requires BlockShapeOk(b)
    ensures b.vtx != []
  {
  }

  // ------------------------------------------------------------ acceptance, stated on the index

  /** Block b holds an output too young to be spent in block h when it is among h and its closest
      ancestors. */
  ghost predicate Immature(index: Index, genesis: Hash, h: Hash, b: Hash, maturity: nat)
    requires TreeOk(index, genesis) && h in index
  {
    b in index && Ancestor(index, genesis, b, h) && index[h].height - index[b].height < maturity
  }

  ghost predicate InputOk(rules: Rules, index: Index, genesis: Hash, h: Hash, view: TxDb, tx: Tx, i: nat)
    requires TreeOk(index, genesis) && h in index && i < |tx.vin|
  {
    var op := tx.vin[i];
    && InRange(view, op) && op.n < |view[op.hash].tx.vout|
    && var e := view[op.hash];
       && (e.tx.IsCoinBase() || e.tx.IsCoinStake() ==> !Immature(index, genesis, h, e.pos.block, rules.maturity))
       && e.tx.time <= tx.time
       && MoneyRange(e.tx.vout[op.n].value) && MoneyRange(ValueIn(view, tx.vin[..i + 1]))
  }

  /** The script test of input i, or true where scripts are not checked. */
  predicate ScriptOk(rules: Rules, height: nat, view: TxDb, tx: Tx, i: nat)
    requires i < |tx.vin|
  {
    tx.vin[i].hash in view && (rules.scriptChecks(height) ==> rules.scriptOk(view[tx.vin[i].hash].tx, tx, i))
  }

  /** A coinstake may not pay more than its reward; any other transaction pays at least its fee. */
  predicate AmountsOk(rules: Rules, db: TxDb, view: TxDb, block: Block, tx: Tx) {
    var valueIn, valueOut := ValueIn(view, tx.vin), ValueOut(tx.vout);
    if tx.IsCoinStake() then
      match rules.stakeReward(db, tx, block)
      case None => false
      case Some(r) => valueOut - valueIn <= r - rules.minFee(tx) + MIN_TX_FEE
    else
      valueOut <= valueIn && valueIn - valueOut >= rules.minFee(tx) && MoneyRange(valueIn - valueOut)
  }

  ghost predicate TxAccepted(rules: Rules, index: Index, genesis: Hash, h: Hash, db: TxDb, view: TxDb, tx: Tx, pos: DiskPos)
    requires TreeOk(index, genesis) && h in index
  {
    && MayOverwrite(db, tx.id)
    && (!tx.IsCoinBase() ==>
          && (forall i :: 0 <= i < |tx.vin| ==> InputOk(rules, index, genesis, h, view, tx, i))
          && (forall i :: 0 <= i < |tx.vin| ==> ScriptOk(rules, index[h].height, view, tx, i))
          && SpendAll(view, tx.vin, pos).Some?
          && AmountsOk(rules, db, view, index[h].block, tx))
  }

  ghost predicate TxsAccepted(rules: Rules, index: Index, genesis: Hash, h: Hash, db: TxDb, txs: seq<Tx>)
    requires TreeOk(index, genesis) && h in index
    decreases |txs|
  {
    txs == [] ||
    var init := txs[..|txs| - 1];
    && TxsAccepted(rules, index, genesis, h, db, init)
    && ConnectTxs(db, h, init).Some?
    && TxAccepted(rules, index, genesis, h, db, ConnectTxs(db, h, init).value, txs[|txs| - 1],
                  DiskPos(h, |txs| - 1))
  }

  /** Block h connects to the index db. */
  ghost predicate Connects(rules: Rules, index: Index, genesis: Hash, h: Hash, db: TxDb)
    requires TreeOk(index, genesis) && h in index
  {
    && BlockShapeOk(index[h].block) && RewardOk(rules, index[h].block)
    && rules.policyOk(db, index[h].block)
    && TxsAccepted(rules, index, genesis, h, db, index[h].block.vtx)
  }

  lemma AcceptedConnect(rules: Rules, index: Index, genesis: Hash, h: Hash, db: TxDb, txs: seq<Tx>)
    requires TreeOk(index, genesis) && h in index && TxsAccepted(rules, index, genesis, h, db, txs)
    ensures ConnectTxs(db, h, txs).Some?
  {
  }

  /** A rejected prefix rejects the whole block. */
  lemma {:induction false} AcceptedPrefix(rules: Rules, index: Index, genesis: Hash, h: Hash, db: TxDb, txs: seq<Tx>, n: nat)
    requires TreeOk(index, genesis) && h in index && n <= |txs|
    requires TxsAccepted(rules, index, genesis, h, db, txs)
    ensures TxsAccepted(rules, index, genesis, h, db, txs[..n])
    decreases |txs|
  {
    if n == |txs| {
      assert txs[..n] == txs;
    } else {
      AcceptedPrefix(rules, index, genesis, h, db, txs[..|txs| - 1], n);
      assert txs[..|txs| - 1][..n] == txs[..n];
    }
  }

  lemma {:induction false} SpendPrefix(db: TxDb, vin: seq<OutPoint>, pos: DiskPos, n: nat)
    requires n <= |vin| && SpendAll(db, vin, pos).Some?
    ensures SpendAll(db, vin[..n], pos).Some?
    decreases |vin|
  {
    if n == |vin| {
      assert vin[..n] == vin;
    } else {
      SpendPrefix(db, vin[..|vin| - 1], pos, n);
      assert vin[..|vin| - 1][..n] == vin[..n];
    }
  }

  // ------------------------------------------------------------ the code

  /** A block has one ancestor at each height. */
  lemma AtHeight(index: Index, genesis: Hash, h: Hash, a: Hash, c: Hash)
    requires TreeOk(index, genesis) && h in index && a in index && c in index
    requires Ancestor(index, genesis, a, h) && Ancestor(index, genesis, c, h)
    ensures index[a].height == index[c].height ==> a == c
  {
    AncestorAt(index, genesis, a, h);
    AncestorAt(index, genesis, c, h);
  }

  /** Walk back from block h looking for block b among the closest ancestors. */
  method TooYoung(index: Index, genesis: Hash, h: Hash, b: Hash, maturity: nat) returns (young: bool)
    requires TreeOk(index, genesis) && h in index
    ensures young <==> Immature(index, genesis, h, b, maturity)
  {
    var cursor: Option<Hash> := Some(h);
    ghost var p := Path(index, genesis, h);
    PathShape(index, genesis, h);
    hide Path;
    while cursor.Some? && index[h].height - index[cursor.value].height < maturity
      invariant cursor.Some? ==> cursor.value in index && Ancestor(index, genesis, cursor.value, h)
      invariant forall c :: (c in index && Ancestor(index, genesis, c, h)
                             && (cursor.Some? ==> index[cursor.value].height < index[c].height)) ==> c != b
      decreases if cursor.None? then 0 else index[cursor.value].height + 1
    {
      if cursor.value == b { return true; }
      var next := index[cursor.value].prev;
      if next.Some? {
        StepKeeps(index, genesis, next.value, cursor.value);
        PathShape(index, genesis, next.value);
        AncestorTransitive(index, genesis, next.value, cursor.value, h);
        forall c | c in index && Ancestor(index, genesis, c, h) && index[next.value].height < index[c].height
          ensures c != b
        {
          AtHeight(index, genesis, h, c, cursor.value);
        }
      } else {
        forall c | c in index && Ancestor(index, genesis, c, h) ensures c != b {
          AtHeight(index, genesis, h, c, cursor.value);
        }
      }
      cursor := next;
    }
    return false;
  }

  /** Every input refers to an output of an entry of the view. */
  ghost predicate Refers(view: TxDb, tx: Tx) {
    forall i :: 0 <= i < |tx.vin| ==> InRange(view, tx.vin[i]) && tx.vin[i].n < |view[tx.vin[i].hash].tx.vout|
  }

  /** inputs holds the view's entries of all previous transactions. */
  ghost predicate Fetched(view: TxDb, inputs: TxDb, tx: Tx) {
    && (forall i :: 0 <= i < |tx.vin| ==> tx.vin[i].hash in inputs)
    && (forall k :: k in inputs ==> k in view && inputs[k] == view[k])
  }

  /** Collect the index entries of the previous transactions, queued changes first. */
  method FetchInputs(db: TxDb, queued: TxDb, tx: Tx) returns (ok: bool, inputs: TxDb)
    requires !tx.IsCoinBase()
    ensures ok <==> Refers(db + queued, tx)
    ensures ok ==> Fetched(db + queued, inputs, tx)
  {
    inputs := map[];
    for i := 0 to |tx.vin|
      invariant forall j :: 0 <= j < i ==> tx.vin[j].hash in inputs
      invariant forall k :: k in inputs ==> k in db + queued && inputs[k] == (db + queued)[k]
    {
      var prevout := tx.vin[i];
      if prevout.hash in inputs { continue; }
      if prevout.hash in queued {
        inputs := inputs[prevout.hash := queued[prevout.hash]];
      } else if prevout.hash in db {
        inputs := inputs[prevout.hash := db[prevout.hash]];
      } else {
        ok := false;
        assert !InRange(db + queued, tx.vin[i]);
        return;
      }
    }
    for i := 0 to |tx.vin|
      invariant forall j :: 0 <= j < i ==>
        InRange(db + queued, tx.vin[j]) && tx.vin[j].n < |(db + queued)[tx.vin[j].hash].tx.vout|
    {
      var prevout := tx.vin[i];
      var e := inputs[prevout.hash];
      if prevout.n >= |e.tx.vout| || prevout.n >= |e.spent| { return false, inputs; }
    }
    ok := true;
  }

  /** The first loop of ConnectInputs: the inexpensive tests, with the running input value. */
  method CheckInputs(rules: Rules, index: Index, genesis: Hash, h: Hash, view: TxDb, inputs: TxDb, tx: Tx)
    returns (ok: bool, valueIn: int)
    requires TreeOk(index, genesis) && h in index
    requires Refers(view, tx) && Fetched(view, inputs, tx)
    ensures ok ==> valueIn == ValueIn(view, tx.vin)
    ensures ok <==> forall i :: 0 <= i < |tx.vin| ==> InputOk(rules, index, genesis, h, view, tx, i)
  {
    hide TreeOk;
    valueIn := 0;
    for i := 0 to |tx.vin|
      invariant valueIn == ValueIn(view, tx.vin[..i])
      invariant forall j :: 0 <= j < i ==> InputOk(rules, index, genesis, h, view, tx, j)
    {
      var prevout := tx.vin[i];
      var e := inputs[prevout.hash];
      if e.tx.IsCoinBase() || e.tx.IsCoinStake() {
        var young := TooYoung(index, genesis, h, e.pos.block, rules.maturity);
        if young {
          assert !InputOk(rules, index, genesis, h, view, tx, i);
          return false, 0;
        }
      }
      assert tx.vin[..i + 1][..i] == tx.vin[..i];
      valueIn := valueIn + e.tx.vout[prevout.n].value;
      if e.tx.time > tx.time || !MoneyRange(e.tx.vout[prevout.n].value) || !MoneyRange(valueIn) {
        assert !InputOk(rules, index, genesis, h, view, tx, i);
        return false, 0;
      }
    }
    assert tx.vin[..|tx.vin|] == tx.vin;
    ok := true;
  }

  /** The second loop of ConnectInputs: double spends and scripts, marking each output as it goes and
      writing the changed entry to the queued changes. */
  method SpendInputs(rules: Rules, height: nat, db: TxDb, inputs0: TxDb, queued0: TxDb, tx: Tx, pos: DiskPos)
    returns (ok: bool, queued: TxDb)
    requires Refers(db + queued0, tx) && Fetched(db + queued0, inputs0, tx)
    ensures ok <==> && SpendAll(db + queued0, tx.vin, pos).Some?
                    && forall i :: 0 <= i < |tx.vin| ==> ScriptOk(rules, height, db + queued0, tx, i)
    ensures ok ==> Some(db + queued) == SpendAll(db + queued0, tx.vin, pos)
  {
    hide SpendAll, Spending, Refers, ScriptOk, Fetched;
    var inputs := inputs0;
    queued := queued0;
    ghost var view := db + queued0;
    ghost var done := view;
    StartSpending(db, queued0, inputs, tx, pos);
    for i := 0 to |tx.vin|
      invariant Spending(view, db, queued, inputs, done, tx, pos, i)
      invariant forall j :: 0 <= j < i ==> ScriptOk(rules, height, view, tx, j)
    {
      ok, inputs, queued, done := SpendOne(rules, height, db, inputs, queued, tx, pos, i, view, done);
      if !ok { return; }
    }
    assert tx.vin[..|tx.vin|] == tx.vin;
    SpendingDone(view, db, queued, inputs, done, tx, pos);
    ok := true;
  }

  /** The first i inputs are spent in done, which the queued changes over the database give, and inputs agrees. */
  ghost predicate Spending(view: TxDb, db: TxDb, queued: TxDb, inputs: TxDb, done: TxDb, tx: Tx, pos: DiskPos, i: nat)
    requires i <= |tx.vin|
  {
    && SpendAll(view, tx.vin[..i], pos) == Some(done) && done == db + queued
    && Fetched(done, inputs, tx)
  }

  lemma StartSpending(db: TxDb, queued: TxDb, inputs: TxDb, tx: Tx, pos: DiskPos)
    requires Fetched(db + queued, inputs, tx)
    ensures Spending(db + queued, db, queued, inputs, db + queued, tx, pos, 0)
  {
  }

  lemma SpendingDone(view: TxDb, db: TxDb, queued: TxDb, inputs: TxDb, done: TxDb, tx: Tx, pos: DiskPos)
    requires Spending(view, db, queued, inputs, done, tx, pos, |tx.vin|)
    ensures SpendAll(view, tx.vin, pos) == Some(db + queued)
  {
    assert tx.vin[..|tx.vin|] == tx.vin;
  }

  /** Input i: refuse it when already spent or when its script fails, else mark it spent. */
  method SpendOne(rules: Rules, height: nat, db: TxDb, inputs0: TxDb, queued0: TxDb, tx: Tx, pos: DiskPos, i: nat,
                  ghost view: TxDb, ghost done0: TxDb)
    returns (ok: bool, inputs: TxDb, queued: TxDb, ghost done: TxDb)
    requires i < |tx.vin| && Refers(view, tx) && Spending(view, db, queued0, inputs0, done0, tx, pos, i)
    ensures ok ==> ScriptOk(rules, height, view, tx, i) && Spending(view, db, queued, inputs, done, tx, pos, i + 1)
    ensures !ok ==> SpendAll(view, tx.vin, pos).None? || !ScriptOk(rules, height, view, tx, i)
  {
    hide SpendAll;
    inputs, queued, done := inputs0, queued0, done0;
    var prevout := tx.vin[i];
    var e := inputs[prevout.hash];
    SpendKeepsTx(view, tx.vin[..i], pos, prevout);
    if e.spent[prevout.n].Some? {
      SpendConflict(view, tx.vin, pos, i);
      return false, inputs, queued, done;
    }
    if rules.scriptChecks(height) && !rules.scriptOk(e.tx, tx, i) {
      return false, inputs, queued, done;
    }
    e := e.(spent := e.spent[prevout.n := Some(pos)]);
    inputs := inputs[prevout.hash := e];
    queued := queued[prevout.hash := e];
    SpendNext(view, tx.vin, pos, i, done);
    OverlayUpdate(db, queued0, prevout.hash, e);
    done := SetMark(done, prevout, Some(pos));
    ok := true;
  }

  /** Spending does not change which outputs an input can refer to. */
  lemma SpendKeepsTx(view: TxDb, vin: seq<OutPoint>, pos: DiskPos, op: OutPoint)
    requires SpendAll(view, vin, pos).Some? && InRange(view, op)
    ensures var d := SpendAll(view, vin, pos).value; InRange(d, op) && d[op.hash].tx == view[op.hash].tx
  {
    SpendMarks(view, vin, pos);
  }

  lemma OverlayUpdate(db: TxDb, queued: TxDb, k: Hash, e: TxIndex)
    ensures db + queued[k := e] == (db + queued)[k := e]
  {
  }

  lemma SpendNext(view: TxDb, vin: seq<OutPoint>, pos: DiskPos, i: nat, d: TxDb)
    requires i < |vin| && SpendAll(view, vin[..i], pos) == Some(d) && CanSpend(d, vin[i])
    ensures SpendAll(view, vin[..i + 1], pos) == Some(SetMark(d, vin[i], Some(pos)))
  {
    assert vin[..i + 1][..i] == vin[..i];
  }

  /** An input found spent after its predecessors were marked makes the whole spend fail. */
  lemma SpendConflict(view: TxDb, vin: seq<OutPoint>, pos: DiskPos, i: nat)
    requires i < |vin| && SpendAll(view, vin[..i], pos).Some? && !CanSpend(SpendAll(view, vin[..i], pos).value, vin[i])
    ensures SpendAll(view, vin, pos).None?
  {
    assert vin[..i + 1][..i] == vin[..i];
    assert SpendAll(view, vin[..i + 1], pos).None?;
    if SpendAll(view, vin, pos).Some? {
      SpendPrefix(view, vin, pos, i + 1);
    }
  }

  method ConnectInputs(rules: Rules, index: Index, genesis: Hash, h: Hash, db: TxDb, inputs: TxDb, queued0: TxDb, tx: Tx, pos: DiskPos)
    returns (ok: bool, queued: TxDb)
    requires TreeOk(index, genesis) && h in index && !tx.IsCoinBase()
    requires Refers(db + queued0, tx) && Fetched(db + queued0, inputs, tx)
    ensures MayOverwrite(db, tx.id) ==> (ok <==> TxAccepted(rules, index, genesis, h, db, db + queued0, tx, pos))
    ensures ok ==> Some(db + queued) == SpendAll(db + queued0, tx.vin, pos)
    ensures ok && !tx.IsCoinStake() ==>
              var valueIn, valueOut := ValueIn(db + queued0, tx.vin), ValueOut(tx.vout);
              valueOut <= valueIn && valueOut + rules.minFee(tx) <= valueIn
    ensures ok && tx.IsCoinStake() ==>
              var reward := rules.stakeReward(db, tx, index[h].block);
              reward.Some? && ValueOut(tx.vout) <= ValueIn(db + queued0, tx.vin) + reward.value - rules.minFee(tx) + MIN_TX_FEE
  {
    queued := queued0;
    var valueIn;
    ok, valueIn := CheckInputs(rules, index, genesis, h, db + queued0, inputs, tx);
    if !ok { return; }
    ok, queued := SpendInputs(rules, index[h].height, db, inputs, queued0, tx, pos);
    if !ok { return; }
    var valueOut := ValueOut(tx.vout);
    if tx.IsCoinStake() {
      var reward := rules.stakeReward(db, tx, index[h].block);
      if reward.None? { return false, queued; }
      ok := valueOut - valueIn <= reward.value - rules.minFee(tx) + MIN_TX_FEE;
    } else {
      if valueIn < valueOut { return false, queued; }
      var fee := valueIn - valueOut;
      if fee < rules.minFee(tx) { return false, queued; }
      ok := MoneyRange(fee);
    }
  }

  /** One turn of ConnectBlock's transaction loop. */
  method ConnectOne(rules: Rules, index: Index, genesis: Hash, h: Hash, db: TxDb, queued0: TxDb, tx: Tx, slot: nat)
    returns (ok: bool, queued: TxDb, valueIn: int, fee: int)
    requires TreeOk(index, genesis) && h in index
    ensures ok <==> TxAccepted(rules, index, genesis, h, db, db + queued0, tx, DiskPos(h, slot))
    ensures ok ==> Some(db + queued) == ConnectTx(db, db + queued0, tx, DiskPos(h, slot))
    ensures ok ==> valueIn == TxValueIn(db + queued0, tx)
    ensures ok ==> fee == if tx.IsCoinBase() || tx.IsCoinStake() then 0 else valueIn - ValueOut(tx.vout)
  {
    hide TreeOk, SpendAll;
    queued, valueIn, fee := queued0, 0, 0;
    if tx.id in db {
      if exists i :: 0 <= i < |db[tx.id].spent| && db[tx.id].spent[i].None? {
        return false, queued, 0, 0;
      }
    }
    var pos := DiskPos(h, slot);
    if !tx.IsCoinBase() {
      var inputs;
      ok, inputs := FetchInputs(db, queued, tx);
      if !ok {
        NotRefers(rules, index, genesis, h, db + queued, tx);
        return;
      }
      valueIn := ValueIn(inputs, tx.vin);
      ValueInFetched(db + queued, inputs, tx.vin);
      if !tx.IsCoinStake() { fee := valueIn - ValueOut(tx.vout); }
      ok, queued := ConnectInputs(rules, index, genesis, h, db, inputs, queued, tx, pos);
      if !ok { return; }
    }
    ghost var before := db + queued;
    queued := queued[tx.id := NewEntry(tx, pos)];
    assert db + queued == before[tx.id := NewEntry(tx, pos)];
    ok := true;
  }

  lemma NotRefers(rules: Rules, index: Index, genesis: Hash, h: Hash, view: TxDb, tx: Tx)
    requires TreeOk(index, genesis) && h in index && !Refers(view, tx)
    ensures exists i :: 0 <= i < |tx.vin| && !InputOk(rules, index, genesis, h, view, tx, i)
  {
    var i :| 0 <= i < |tx.vin| && !(InRange(view, tx.vin[i]) && tx.vin[i].n < |view[tx.vin[i].hash].tx.vout|);
    assert !InputOk(rules, index, genesis, h, view, tx, i);
  }

  lemma {:induction false} ValueInFetched(view: TxDb, inputs: TxDb, vin: seq<OutPoint>)
    requires forall i :: 0 <= i < |vin| ==> vin[i].hash in inputs
    requires forall k :: k in inputs ==> k in view && inputs[k] == view[k]
    ensures ValueIn(inputs, vin) == ValueIn(view, vin)
  {
    if vin != [] { ValueInFetched(view, inputs, vin[..|vin| - 1]); }
  }

  /** The transactions txs are accepted, lead to the index `view`, and have these sums. */
  ghost predicate Sums(rules: Rules, index: Index, genesis: Hash, h: Hash, db: TxDb, txs: seq<Tx>, view: TxDb,
                       valueIn: int, valueOut: int, fees: int)
    requires TreeOk(index, genesis) && h in index
  {
    && TxsAccepted(rules, index, genesis, h, db, txs) && ConnectTxs(db, h, txs) == Some(view)
    && valueIn == BlockValueIn(db, h, txs) && valueOut == BlockValueOut(txs) && fees == BlockFees(db, h, txs)
  }

  lemma SumsOfNone(rules: Rules, index: Index, genesis: Hash, h: Hash, db: TxDb)
    requires TreeOk(index, genesis) && h in index
    ensures Sums(rules, index, genesis, h, db, [], db, 0, 0, 0)
  {
  }

  /** Accepting one more transaction, and what that does to the running sums. */
  lemma AcceptNext(rules: Rules, index: Index, genesis: Hash, h: Hash, db: TxDb, vtx: seq<Tx>, i: nat, view: TxDb,
                   valueIn: int, valueOut: int, fees: int)
    requires TreeOk(index, genesis) && h in index && i < |vtx|
    requires Sums(rules, index, genesis, h, db, vtx[..i], view, valueIn, valueOut, fees)
    ensures if TxAccepted(rules, index, genesis, h, db, view, vtx[i], DiskPos(h, i))
            then match ConnectTx(db, view, vtx[i], DiskPos(h, i))
                 case None => true
                 case Some(d) =>
                   var fee := if vtx[i].IsCoinBase() || vtx[i].IsCoinStake() then 0 else TxValueIn(view, vtx[i]) - ValueOut(vtx[i].vout);
                   Sums(rules, index, genesis, h, db, vtx[..i + 1], d, valueIn + TxValueIn(view, vtx[i]),
                        valueOut + ValueOut(vtx[i].vout), fees + fee)
            else !TxsAccepted(rules, index, genesis, h, db, vtx)
  {
    hide TreeOk, TxAccepted, ConnectTx, TxValueIn, ValueOut;
    assert vtx[..i + 1][..i] == vtx[..i];
    if TxsAccepted(rules, index, genesis, h, db, vtx) {
      AcceptedPrefix(rules, index, genesis, h, db, vtx, i + 1);
    }
  }

  lemma SumsOfAll(rules: Rules, index: Index, genesis: Hash, h: Hash, db: TxDb, vtx: seq<Tx>, view: TxDb,
                  valueIn: int, valueOut: int, fees: int)
    requires TreeOk(index, genesis) && h in index && Sums(rules, index, genesis, h, db, vtx, view, valueIn, valueOut, fees)
    ensures TxsAccepted(rules, index, genesis, h, db, vtx) && ConnectTxs(db, h, vtx) == Some(view)
    ensures valueOut - valueIn == BlockValueOut(vtx) - BlockValueIn(db, h, vtx)
    ensures valueOut - valueIn + fees == BlockMint(db, h, vtx)
  {
    hide TreeOk, TxAccepted;
    FeesAreDestroyed(db, h, vtx);
  }

  /** What ConnectBlock computes: the queued changes to write, the minted amount and the change of
      the money supply. */
  method ConnectTransactions(rules: Rules, index: Index, genesis: Hash, h: Hash, db: TxDb)
    returns (ok: bool, queued: TxDb, supplyChange: int, mint: int)
    requires TreeOk(index, genesis) && h in index
    ensures ok <==> Connects(rules, index, genesis, h, db)
    ensures ok ==> ConnectTxs(db, h, index[h].block.vtx) == Some(db + queued)
    ensures ok ==> supplyChange == BlockValueOut(index[h].block.vtx) - BlockValueIn(db, h, index[h].block.vtx)
    ensures ok ==> mint == BlockMint(db, h, index[h].block.vtx)
  {
    hide TreeOk, TxAccepted, TxsAccepted, ConnectTx, ConnectTxs, TxValueIn, ValueOut,
         BlockValueIn, BlockValueOut, BlockFees, BlockMint, Sums, BlockShapeOk, RewardOk;
    queued, supplyChange, mint := map[], 0, 0;
    var vtx := index[h].block.vtx;
    if !BlockShapeOk(index[h].block) { return false, queued, 0, 0; }
    ShapeNonEmpty(index[h].block);
    if !RewardOk(rules, index[h].block) || !rules.policyOk(db, index[h].block) { return false, queued, 0, 0; }
    var valueIn, valueOut, fees := 0, 0, 0;
    ghost var view := db;
    assert view == db + queued;
    assert vtx[..0] == [];
    SumsOfNone(rules, index, genesis, h, db);
    for i := 0 to |vtx|
      invariant Sums(rules, index, genesis, h, db, vtx[..i], view, valueIn, valueOut, fees) && view == db + queued
    {
      var txIn, fee;
      AcceptNext(rules, index, genesis, h, db, vtx, i, view, valueIn, valueOut, fees);
      ok, queued, txIn, fee := ConnectOne(rules, index, genesis, h, db, queued, vtx[i], i);
      if !ok { return; }
      valueIn, valueOut, fees := valueIn + txIn, valueOut + ValueOut(vtx[i].vout), fees + fee;
      view := db + queued;
    }
    assert vtx[..|vtx|] == vtx;
    supplyChange, mint := valueOut - valueIn, valueOut - valueIn + fees;
    SumsOfAll(rules, index, genesis, h, db, vtx, view, valueIn, valueOut, fees);
    ok := true;
  }
}

/** A run on which the best block gets ahead of the links and the database, and money is lost track of. The node is on
    block 3, over 2; a side branch 4, 5 has no more trust. A checkpoint on 4 makes the node switch to 4. Then block 6
    arrives on 5, with a transaction that spends an output nobody has: it has more trust than 4, so the node reorganizes
    to 5, postpones 6, fails to connect it, and makes it the best block all the same. Block 7 on 6 then connects, to a
    database that never saw 6. */
module ChainWitness {
  import opened Basics
  import opened Ledger
  import opened Sequences
  import opened Supply
  import opened BlockTree
  import opened Validation
  import opened Replay
  import opened Switching
  import opened ChainState
  import opened Checkpoints
  import opened Arithmetic
  import opened Bytes
  import opened Compact
  import opened Retarget
  import opened Headers

  // ------------------------------------------------------------ the blocks

  /** The limits of the main network, 2^236 - 1 and 2^232 - 1, its first spacing in seconds, and its start time. */
  const LIMITS: Limits := Limits(16 * Pow256(29) - 1, Pow256(29) - 1)
  const PACE: Pace := Pace(30, 13824)
  const START: nat := 1371910049

  function HeaderAt(height: nat): Header { Header(false, START + PACE.spacing * height, GetCompact(LIMITS.work)) }

  function DepthOf(h: Hash): nat {
    if h == 1 then 0 else if h == 2 || h == 4 then 1 else if h == 3 || h == 5 then 2 else if h == 6 then 3 else 4
  }

  function TimeOf(h: Hash): nat { HeaderAt(DepthOf(h)).time }

  function Coinbase(h: Hash): Tx { Tx(100 + h, TimeOf(h), [OutPoint(0, NULL_INDEX)], [TxOut(5000, [1])]) }

  /** It spends output 0 of a transaction that does not exist. */
  const STRAY: Tx := Tx(206, TimeOf(6), [OutPoint(999, 0)], [TxOut(2000, [1])])

  function BlockOf(h: Hash, prev: Hash): Block {
    Block(h, prev, TimeOf(h), HeaderAt(DepthOf(h)).bits, if h == 6 then [Coinbase(6), STRAY] else [Coinbase(h)])
  }

  /** Every test that is not modelled passes. */
  function Lenient(): Rules {
    Rules((_, _) => true, (_, _, _) => true, _ => true, _ => 1000, (_, _, _) => None, _ => 5000000, 5)
  }

  function EntryOf(h: Hash): TxIndex { NewEntry(Coinbase(h), DiskPos(h, 0)) }

  lemma OneOutput(v: int, s: seq<nat>)
    requires MIN_TXOUT_AMOUNT <= v <= MAX_MONEY
    ensures var vout := [TxOut(v, s)]; forall i :: 0 <= i <= |vout| ==> MoneyRange(ValueOut(vout[..i]))
  {
    var vout := [TxOut(v, s)];
    assert vout[..1] == vout && vout[..0] == [];
    assert ValueOut(vout) == ValueOut([]) + v;
  }

  /** Every block of the run passes the context-free tests. */
  lemma ShapeOk(h: Hash, prev: Hash)
    ensures BlockShapeOk(BlockOf(h, prev))
  {
    hide HeaderAt;
    OneOutput(5000, [1]);
    OneOutput(2000, [1]);
  }

  /** A block of one coinbase with an unused id connects. */
  lemma CoinbaseConnects(index: Index, h: Hash, prev: Hash, db: TxDb)
    requires TreeOk(index, 1) && h in index && index[h].block == BlockOf(h, prev) && h != 6 && 100 + h !in db
    ensures Connects(Lenient(), index, 1, h, db)
    ensures ConnectTxs(db, h, index[h].block.vtx) == Some(db[100 + h := EntryOf(h)])
  {
    hide TreeOk, HeaderAt, BlockShapeOk;
    var tx := Coinbase(h);
    ShapeOk(h, prev);
    assert [tx][..0] == [];
    assert ConnectTxs(db, h, []) == Some(db);
    assert TxsAccepted(Lenient(), index, 1, h, db, []);
    assert TxsAccepted(Lenient(), index, 1, h, db, [tx]);
  }

  /** Block 6 does not connect: the output it spends is missing. */
  lemma StrayFails(index: Index, db: TxDb)
    requires TreeOk(index, 1) && 6 in index && index[6].block == BlockOf(6, 5) && 106 !in db && 999 !in db
    ensures !Connects(Lenient(), index, 1, 6, db)
  {
    hide TreeOk;
    var vtx := [Coinbase(6), STRAY];
    assert vtx[..1] == [Coinbase(6)] && [Coinbase(6)][..0] == [];
    assert ConnectTxs(db, 6, []) == Some(db);
    assert ConnectTxs(db, 6, [Coinbase(6)]) == Some(db[106 := EntryOf(6)]);
    var view := db[106 := EntryOf(6)];
    assert !InRange(view, STRAY.vin[0]);
    assert !InputOk(Lenient(), index, 1, 6, view, STRAY, 0);
    assert !STRAY.IsCoinBase();
    assert !TxAccepted(Lenient(), index, 1, 6, db, view, STRAY, DiskPos(6, 1));
  }

  // ------------------------------------------------------------ the trees

  const NODE1: BlockIndex := BlockIndex(None, 0, 1, BlockOf(1, 0))
  const NODE2: BlockIndex := BlockIndex(Some(1), 1, 2, BlockOf(2, 1))
  const NODE3: BlockIndex := BlockIndex(Some(2), 2, 3, BlockOf(3, 2))
  const NODE4: BlockIndex := BlockIndex(Some(1), 1, 2, BlockOf(4, 1))
  const NODE5: BlockIndex := BlockIndex(Some(4), 2, 3, BlockOf(5, 4))
  const NODE6: BlockIndex := BlockIndex(Some(5), 3, 4, BlockOf(6, 5))
  const NODE7: BlockIndex := BlockIndex(Some(6), 4, 5, BlockOf(7, 6))

  const TREE1: Index := map[1 := NODE1]
  const TREE2: Index := TREE1[2 := NODE2]
  const TREE3: Index := TREE2[3 := NODE3]
  const TREE4: Index := TREE3[4 := NODE4]
  const TREE5: Index := TREE4[5 := NODE5]
  const TREE6: Index := TREE5[6 := NODE6]
  const TREE7: Index := TREE6[7 := NODE7]

  /** The block has the header of its height, a trust one more than its height, and transactions of its time. */
  ghost predicate MadeBlock(b: BlockIndex) {
    && b.block.time == HeaderAt(b.height).time && b.block.bits == HeaderAt(b.height).bits && b.trust == b.height + 1
    && forall i :: 0 <= i < |b.block.vtx| ==> b.block.vtx[i].time == b.block.time
  }

  ghost predicate Made(index: Index) { forall h :: h in index ==> MadeBlock(index[h]) }

  ghost predicate Sprouted(index: Index) { TreeOk(index, 1) && Made(index) }

  lemma TreeGrows(index: Index, h: Hash, prev: Hash)
    requires Sprouted(index) && prev in index && h !in index && DepthOf(h) == index[prev].height + 1
    ensures ChildOf(index, BlockOf(h, prev), 1) == BlockIndex(Some(prev), DepthOf(h), DepthOf(h) + 1, BlockOf(h, prev))
    ensures Sprouted(index[h := ChildOf(index, BlockOf(h, prev), 1)])
  {
    BlockFields(h, prev);
    BlockMade(h, prev);
    hide TreeOk, MadeBlock, BlockOf, DepthOf;
    assert MadeBlock(index[prev]) && index[prev].trust == index[prev].height + 1 by { TrustOf(index, prev); }
    ChildKeepsTree(index, 1, BlockOf(h, prev), 1);
  }

  lemma TrustOf(index: Index, h: Hash)
    requires Made(index) && h in index
    ensures index[h].trust == index[h].height + 1
  {
  }

  lemma BlockMade(h: Hash, prev: Hash)
    ensures MadeBlock(BlockIndex(Some(prev), DepthOf(h), DepthOf(h) + 1, BlockOf(h, prev)))
  {
    hide HeaderAt;
  }

  lemma FirstTree()
    ensures Sprouted(TREE1)
  {
    hide Pow256, GetCompact;
  }

  lemma TreesTo3()
    ensures Sprouted(TREE1) && Sprouted(TREE2) && Sprouted(TREE3)
    ensures ChildOf(TREE1, BlockOf(2, 1), 1) == NODE2 && ChildOf(TREE2, BlockOf(3, 2), 1) == NODE3
  {
    hide Sprouted, BlockOf;
    FirstTree();
    TreeGrows(TREE1, 2, 1);
    TreeGrows(TREE2, 3, 2);
  }

  lemma TreesTo5()
    ensures Sprouted(TREE3) && Sprouted(TREE4) && Sprouted(TREE5)
    ensures ChildOf(TREE3, BlockOf(4, 1), 1) == NODE4 && ChildOf(TREE4, BlockOf(5, 4), 1) == NODE5
  {
    TreesTo3();
    hide Sprouted, BlockOf;
    TreeGrows(TREE3, 4, 1);
    TreeGrows(TREE4, 5, 4);
  }

  lemma TreesTo7()
    ensures Sprouted(TREE5) && Sprouted(TREE6) && Sprouted(TREE7)
    ensures ChildOf(TREE5, BlockOf(6, 5), 1) == NODE6 && ChildOf(TREE6, BlockOf(7, 6), 1) == NODE7
  {
    TreesTo5();
    hide Sprouted, BlockOf;
    TreeGrows(TREE5, 6, 5);
    TreeGrows(TREE6, 7, 6);
  }

  /** Blocks 2 and 3 over the genesis block, and block 4 beside them, whatever its trust. */
  ghost predicate Forked(index: Index) {
    && TreeOk(index, 1) && 1 in index && 2 in index && 3 in index && 4 in index
    && index[1] == NODE1 && index[2] == NODE2 && index[3] == NODE3
    && index[4].prev == Some(1) && index[4].height == 1 && index[4].block == BlockOf(4, 1)
  }

  /** What the later trees agree on. */
  ghost predicate Holds(index: Index) {
    && TreeOk(index, 1) && 1 in index && 2 in index && 3 in index && 4 in index && 5 in index
    && index[1] == NODE1 && index[2] == NODE2 && index[3] == NODE3 && index[4] == NODE4 && index[5] == NODE5
  }

  lemma HoldsForked(index: Index)
    requires Holds(index)
    ensures Forked(index)
  {
    hide TreeOk, BlockOf;
  }

  lemma AllHold()
    ensures Holds(TREE5) && Holds(TREE6) && Holds(TREE7)
  {
    TreesTo7();
    hide TreeOk, Made, BlockOf;
  }

  lemma Paths(index: Index)
    requires Holds(index)
    ensures Path(index, 1, 1) == [1] && Path(index, 1, 2) == [1, 2] && Path(index, 1, 3) == [1, 2, 3]
    ensures Path(index, 1, 4) == [1, 4] && Path(index, 1, 5) == [1, 4, 5]
  {
    hide TreeOk, BlockOf;
    HoldsForked(index);
    ForkedPaths(index);
    assert Path(index, 1, 5) == [1, 4] + [5];
  }

  lemma ForkedPaths(index: Index)
    requires Forked(index)
    ensures Path(index, 1, 1) == [1] && Path(index, 1, 2) == [1, 2] && Path(index, 1, 3) == [1, 2, 3] && Path(index, 1, 4) == [1, 4]
  {
    hide TreeOk, BlockOf;
    assert Path(index, 1, 1) == [1];
    assert Path(index, 1, 2) == [1] + [2];
    assert Path(index, 1, 3) == [1, 2] + [3];
    assert Path(index, 1, 4) == [1] + [4];
  }

  lemma PathOf6()
    ensures TreeOk(TREE6, 1) && Path(TREE6, 1, 6) == [1, 4, 5, 6]
  {
    AllHold();
    Paths(TREE6);
    hide TreeOk, BlockOf;
    assert Path(TREE6, 1, 6) == [1, 4, 5] + [6];
  }

  // ------------------------------------------------------------ bits, times and trust are those the code demands

  function HeaderOf(b: Block): Header
    requires b.time >= 0
  {
    Header(false, b.time, b.bits)
  }

  ghost function HeadersOf(index: Index, path: seq<Hash>): seq<Header>
    requires Made(index) && Indexed(index, path)
  {
    seq(|path|, i requires 0 <= i < |path| => HeaderOf(index[path[i]].block))
  }

  /** The block has the bits required after its ancestors, is later than their median time, adds the trust of its
      bits, and its transactions have its time. Up to block 1600000 the code requires the bits of the version 1
      retarget, which for proof of work are those of version 2 as long as the times are in order. */
  ghost predicate Demanded(index: Index, h: Hash)
    requires Sprouted(index) && h in index && index[h].prev.Some?
  {
    PathShape(index, 1, index[h].prev.value);
    var chain, header := HeadersOf(index, Path(index, 1, index[h].prev.value)), HeaderOf(index[h].block);
    && BitsOk(chain) && header.bits < TWO_32 && chain != [] && HeaderOk(LIMITS, PACE, chain, header)
    && index[h].trust == index[index[h].prev.value].trust + BlockTrust(LIMITS, header)
    && forall i :: 0 <= i < |index[h].block.vtx| ==> index[h].block.vtx[i].time == index[h].block.time
  }

  lemma LimitsAreOk()
    ensures LimitsOk(LIMITS) && Size(LIMITS.work) >= 3 && PaceOk(PACE)
  {
    hide Pow256, ToMpi, Size;
    Pow256Sum(1, 28);
    Pow256Sum(3, 29);
    Pow256Small();
    SizeIs(LIMITS.work, 30);
  }

  /** Every block of such a tree passes. */
  lemma MadeFits(index: Index, h: Hash)
    requires Sprouted(index) && h in index && index[h].prev.Some?
    ensures Demanded(index, h)
  {
    hide Pow256, GetCompact, Path, HeaderOk, BlockTrust, LimitsOk, Size;
    var prev := index[h].prev.value;
    var n := index[h].height;
    LimitsAreOk();
    PathShape(index, 1, prev);
    RegularOk(LIMITS, PACE, START, n);
    LimitTrust(LIMITS, HeaderAt(n).time);
    MadeRegular(index, prev);
  }

  /** The headers of a path are a regular chain. */
  lemma MadeRegular(index: Index, h: Hash)
    requires Sprouted(index) && h in index
    ensures Indexed(index, Path(index, 1, h))
    ensures HeadersOf(index, Path(index, 1, h)) == Regular(LIMITS, PACE, START, index[h].height + 1)
  {
    hide Pow256, GetCompact, Path, TreeOk, Made, HeaderAt, HeaderOf;
    PathShape(index, 1, h);
    var path := Path(index, 1, h);
    var n := |path|;
    assert |HeadersOf(index, path)| == |Regular(LIMITS, PACE, START, n)| == n;
    forall i | 0 <= i < n ensures HeadersOf(index, path)[i] == Regular(LIMITS, PACE, START, n)[i] {
      HeaderMade(index, path[i]);
      RegularAt(n, i);
    }
  }

  lemma HeaderMade(index: Index, h: Hash)
    requires Made(index) && h in index
    ensures index[h].block.time >= 0 && HeaderOf(index[h].block) == HeaderAt(index[h].height)
  {
    hide Pow256, GetCompact;
  }

  lemma RegularAt(n: nat, i: nat)
    requires i < n
    ensures Regular(LIMITS, PACE, START, n)[i] == HeaderAt(i)
  {
    hide Pow256, GetCompact;
  }

  // ------------------------------------------------------------ the steps

  lemma ConnectsOne(index: Index, db: TxDb, h: Hash)
    requires TreeOk(index, 1) && h in index
    ensures ConnectMany(Lenient(), index, 1, db, [h])
            == if Connects(Lenient(), index, 1, h, db) then ConnectTxs(db, h, index[h].block.vtx) else None
  {
    hide TreeOk, Connects, ConnectTxs;
    assert [h][..0] == [];
    assert ConnectMany(Lenient(), index, 1, db, []) == Some(db);
  }

  const DB2: TxDb := map[102 := EntryOf(2)]
  const DB3: TxDb := map[102 := EntryOf(2), 103 := EntryOf(3)]
  const DB4: TxDb := map[104 := EntryOf(4)]
  const DB5: TxDb := map[104 := EntryOf(4), 105 := EntryOf(5)]

  /** Blocks 2 and 3 extend the genesis block. */
  lemma Add2()
    ensures TreeOk(TREE1, 1)
    ensures Added(Lenient(), 1, Sight(TREE1, map[], 1, 1, map[]), BlockOf(2, 1), 1)
            == (true, Sight(TREE2, map[1 := 2], 2, 2, DB2))
  {
    hide TreeOk, Connects, ConnectTxs, Made, HeaderAt, EntryOf;
    TreesTo3();
    CoinbaseConnects(TREE2, 2, 1, map[]);
    var none: TxDb := map[];
    assert none[102 := EntryOf(2)] == DB2;
  }

  lemma Add3()
    ensures TreeOk(TREE2, 1)
    ensures Added(Lenient(), 1, Sight(TREE2, map[1 := 2], 2, 2, DB2), BlockOf(3, 2), 1)
            == (true, Sight(TREE3, map[1 := 2, 2 := 3], 3, 3, DB3))
  {
    hide TreeOk, Connects, ConnectTxs, Made, HeaderAt, EntryOf;
    TreesTo3();
    CoinbaseConnects(TREE3, 3, 2, DB2);
    assert DB2[103 := EntryOf(3)] == DB3;
    assert map[1 := 2][2 := 3] == map[1 := 2, 2 := 3];
  }

  /** Blocks 4 and 5 have no more trust than block 3. */
  lemma Add45(s: Sight)
    requires s.best == 3
    ensures TreeOk(TREE3, 1) && TreeOk(TREE4, 1)
    ensures s.index == TREE3 ==> Added(Lenient(), 1, s, BlockOf(4, 1), 1) == (true, s.(index := TREE4))
    ensures s.index == TREE4 ==> Added(Lenient(), 1, s, BlockOf(5, 4), 1) == (true, s.(index := TREE5))
  {
    hide TreeOk, Made, Switched, HeaderAt;
    TreesTo5();
  }

  /** Leaving blocks 3 and 2 for block 4. */
  lemma To4(links: map<Hash, Hash>)
    ensures Holds(TREE5)
    ensures var (ok, s') := Switched(Lenient(), 1, Sight(TREE5, links, 3, 3, DB3), 4);
            ok && s'.index == TREE5 && s'.best == 4 && s'.dbBest == 4 && s'.tx == DB4
  {
    hide TreeOk, Connects, ConnectTxs, ReorgResult, Relinked, BlockOf, EntryOf;
    AllHold();
    HoldsForked(TREE5);
    Move4(TREE5, links);
  }

  lemma Move4(index: Index, links: map<Hash, Hash>)
    requires Forked(index)
    ensures var (ok, s') := Switched(Lenient(), 1, Sight(index, links, 3, 3, DB3), 4);
            ok && s'.index == index && s'.best == 4 && s'.dbBest == 4 && s'.tx == DB4
  {
    hide TreeOk, Connects, ConnectTxs, ReorgResult, Relinked, BlockOf, EntryOf;
    ForkedPaths(index);
    Reorg4(index);
    assert Intermediate(index, 1, 4, 3) == 4;
    assert Above(index, 1, 4, 4) == [];
  }

  lemma Reorg4(index: Index)
    requires Forked(index)
    ensures ReorgResult(Lenient(), index, 1, DB3, 3, 4) == Some(DB4)
  {
    hide TreeOk, Path, Connects, ConnectTxs, DisconnectMany, ConnectMany, BlockOf, CommonLen, Reversed, EntryOf;
    ForkedPaths(index);
    CoinbaseConnects(index, 4, 1, map[]);
    ConnectsOne(index, map[], 4);
    Leave32(index);
    var none: TxDb := map[];
    assert none[104 := EntryOf(4)] == DB4;
    Fork34();
  }

  lemma Fork34()
    ensures CommonLen([1, 2, 3], [1, 4]) == 1 && [1, 2, 3][1..] == [2, 3] && [1, 4][1..] == [4] && Reversed<Hash>([2, 3]) == [3, 2]
  {
    CommonLenIs([1, 2, 3], [1, 4], 1);
  }

  lemma Fork45()
    ensures CommonLen([1, 4], [1, 4, 5]) == 2 && [1, 4][2..] == [] && [1, 4, 5][2..] == [5] && Reversed<Hash>([]) == []
  {
    CommonLenIs([1, 4], [1, 4, 5], 2);
  }

  /** Disconnecting a block of one coinbase. */
  lemma LeaveCoinbase(index: Index, h: Hash, prev: Hash, db: TxDb)
    requires h in index && index[h].block == BlockOf(h, prev) && h != 6
    ensures DisconnectTxs(db, index[h].block.vtx) == Some(db - {100 + h})
  {
    var tx := Coinbase(h);
    assert [tx][..0] == [];
    assert DisconnectTx(db, tx) == Some(db - {100 + h});
  }

  lemma Leave32(index: Index)
    requires Forked(index)
    ensures DisconnectMany(index, DB3, [3, 2]) == Some(map[])
  {
    hide TreeOk, DisconnectTxs, BlockOf, EntryOf;
    LeaveCoinbase(index, 3, 2, DB3);
    LeaveCoinbase(index, 2, 1, DB2);
    assert DB3 - {103} == DB2 && DB2 - {102} == map[];
    assert [3, 2][..1] == [3] && [3][..0] == [];
    assert DisconnectMany(index, DB3, []) == Some(DB3);
    assert DisconnectMany(index, DB3, [3]) == Some(DB2);
  }

  /** Block 4 with more than the two units of trust that blocks 2 and 3 add. */
  lemma AddHeavy(links: map<Hash, Hash>, trust: nat)
    requires trust > 2
    ensures TreeOk(TREE3, 1)
    ensures var (ok, s') := Added(Lenient(), 1, Sight(TREE3, links, 3, 3, DB3), BlockOf(4, 1), trust);
            ok && s'.best == 4 && s'.dbBest == 4 && s'.tx == DB4
  {
    hide TreeOk, Made, Switched, BlockOf;
    TreesTo3();
    BlockFields(4, 1);
    var index := TREE3[4 := ChildOf(TREE3, BlockOf(4, 1), trust)];
    ChildKeepsTree(TREE3, 1, BlockOf(4, 1), trust);
    assert Forked(index);
    Move4(index, links);
  }

  /** Block 6 arrives while the best block is 4. */
  lemma Add6(links: map<Hash, Hash>)
    ensures Holds(TREE5) && Holds(TREE6) && 6 in TREE6
    ensures var (ok, s') := Added(Lenient(), 1, Sight(TREE5, links, 4, 4, DB4), BlockOf(6, 5), 1);
            ok && s'.index == TREE6 && s'.best == 6 && s'.dbBest == 5 && s'.tx == DB5
  {
    TreesTo7();
    AllHold();
    Reorg5();
    Run6();
    PathOf6();
    Paths(TREE6);
    hide TreeOk, Made, Connects, ConnectTxs, ReorgResult, Relinked, ConnectRun, BlockOf;
    assert BlockOf(6, 5).hash == 6 && BlockOf(6, 5).prevHash == 5 by { BlockFields(6, 5); }
    assert Intermediate(TREE6, 1, 6, 2) == 5;
    assert Above(TREE6, 1, 5, 6) == [6];
  }

  lemma BlockFields(h: Hash, prev: Hash)
    ensures BlockOf(h, prev).hash == h && BlockOf(h, prev).prevHash == prev
  {
  }

  lemma Reorg5()
    ensures Holds(TREE6) && ReorgResult(Lenient(), TREE6, 1, DB4, 4, 5) == Some(DB5)
  {
    hide TreeOk, Path, Connects, ConnectTxs, ConnectMany, BlockOf, CommonLen, Reversed, EntryOf;
    AllHold();
    Paths(TREE6);
    CoinbaseConnects(TREE6, 5, 4, DB4);
    ConnectsOne(TREE6, DB4, 5);
    assert DB4[105 := EntryOf(5)] == DB5;
    Fork45();
    assert DisconnectMany(TREE6, DB4, []) == Some(DB4);
  }

  lemma Run6()
    ensures Holds(TREE6) && ConnectRun(Lenient(), TREE6, 1, DB5, [6]) == (0, DB5)
  {
    hide TreeOk, Connects, ConnectTxs, BlockOf, EntryOf;
    AllHold();
    StrayFails(TREE6, DB5);
    assert [6][..0] == [];
    assert ConnectRun(Lenient(), TREE6, 1, DB5, []) == (0, DB5);
  }

  /** Block 7 extends the best block. */
  lemma Add7(links: map<Hash, Hash>)
    ensures Holds(TREE6)
    ensures var (ok, s') := Added(Lenient(), 1, Sight(TREE6, links, 6, 5, DB5), BlockOf(7, 6), 1);
            ok && s'.index == TREE7 && s'.best == 7 && s'.dbBest == 7
  {
    hide TreeOk, Made, Connects, ConnectTxs, HeaderAt, EntryOf;
    TreesTo7();
    AllHold();
    CoinbaseConnects(TREE7, 7, 6, DB5);
  }

  /** The two coinbases of the database. */
  lemma TotalOfDB5()
    ensures Total(DB5) == 10000
  {
    var none: TxDb := map[];
    assert none[104 := EntryOf(4)] == DB4 && DB4[105 := EntryOf(5)] == DB5;
    EntryValue(4);
    EntryValue(5);
    hide Unspent;
    TotalUpdate(none, 104, EntryOf(4));
    TotalUpdate(DB4, 105, EntryOf(5));
  }

  lemma EntryValue(h: Hash)
    ensures Unspent(EntryOf(h)) == 5000
  {
    var e := EntryOf(h);
    assert UnspentUpTo(e, 0) == 0;
    assert UnspentUpTo(e, 1) == 5000;
  }

  // ------------------------------------------------------------ the run

  /** Every block descends from the genesis block. */
  lemma GenesisAllows(index: Index, h: Hash, prev: Hash)
    requires TreeOk(index, 1) && prev in index
    ensures SyncOk(index, 1, 1, h, prev)
  {
    PathShape(index, 1, prev);
  }

  /** With nothing pending, an admitted block changes the chain only. */
  lemma Plain(d: Desk, e: Event)
    requires DeskOk(1, d) && e.NewBlock? && d.pending.None? && Admitted(1, d, e.block, e.checksOk)
    ensures Handled(1, d, e) == d.(s := Added(e.rules, 1, d.s, e.block, e.trust).1)
  {
  }

  /** Feed the node a block of the run. */
  method Feed(node: Node, h: Hash, prev: Hash, trust: nat) returns (ok: bool)
    requires node.Valid() && node.hashPending.None? && node.chain.genesis == 1
    requires h !in node.chain.index && prev in node.chain.index && SyncOk(node.chain.index, 1, node.hashSync, h, prev)
    modifies node, node.chain
    ensures node.Valid() && node.hashPending.None? && node.hashSync == old(node.hashSync)
    ensures (ok, node.chain.Now()) == Added(Lenient(), 1, old(node.chain.Now()), BlockOf(h, prev), trust)
    ensures old(node.chain.Valid() && node.chain.InSync()) ==>
              && node.chain.Valid()
              && (Total(node.chain.db.tx) == node.chain.moneySupply[node.chain.best] <==>
                    node.chain.InSync() || Total(node.chain.db.tx) == 0)
    ensures old(node.chain.best) == prev && node.chain.best == h ==>
              && Total(node.chain.db.tx) - node.chain.moneySupply[h] == old(Total(node.chain.db.tx) - node.chain.moneySupply[prev])
              && (old(node.chain.Valid()) ==> (node.chain.Valid() <==> old(node.chain.InSync())))
  {
    hide TreeOk, Added, At, Links, FlagsOk, Step, SyncOk, Total, Handled, Halfway, TakenUp;
    BlockFields(h, prev);
    ghost var d, e := node.Now(), NewBlock(Lenient(), BlockOf(h, prev), trust, true, Lenient());
    Plain(d, e);
    PlainHalf(d, e);
    ok := node.AcceptBlock(Lenient(), BlockOf(h, prev), trust, true, Lenient());
  }

  lemma PlainHalf(d: Desk, e: Event)
    requires DeskOk(1, d) && e.NewBlock? && d.pending.None? && Admitted(1, d, e.block, e.checksOk)
    ensures Halfway(1, d, e) == d.(s := Added(e.rules, 1, d.s, e.block, e.trust).1)
  {
  }

  /** Blocks 2 and 3 arrive: the node is on block 3. */
  method StartOn3() returns (node: Node)
    ensures fresh(node) && fresh(node.chain) && node.Valid() && node.chain.Valid() && node.hashPending.None? && node.hashSync == 1
    ensures node.chain.genesis == 1 && node.chain.Now() == Sight(TREE3, map[1 := 2, 2 := 3], 3, 3, DB3)
  {
    var chain := new Chain(BlockOf(1, 0), 1);
    node := new Node(chain);
    TreesTo3();
    Add2();
    Add3();
    GenesisAllows(TREE1, 2, 1);
    GenesisAllows(TREE2, 3, 2);
    hide TreeOk, Made, Added, At, Links, FlagsOk, Step, SyncOk, Total;
    var _ := Feed(node, 2, 1, 1);
    var _ := Feed(node, 3, 2, 1);
  }

  /** A branch of one block with more trust than the two blocks of the main chain together becomes the main chain. */
  method ShorterButHeavier(trust: nat) returns (node: Node, accepted: bool)
    requires trust > 2
    ensures fresh(node) && fresh(node.chain) && node.Valid() && accepted
    ensures node.chain.best == 4 && node.chain.InSync() && 3 in node.chain.index && 4 in node.chain.index
    ensures node.chain.index[4].height < node.chain.index[3].height && node.chain.index[4].trust == 1 + trust > node.chain.index[3].trust == 3
  {
    node := StartOn3();
    TreesTo3();
    GenesisAllows(TREE3, 4, 1);
    AddHeavy(map[1 := 2, 2 := 3], trust);
    AddedShape(Lenient(), 1, node.chain.Now(), BlockOf(4, 1), trust);
    BlockFields(4, 1);
    ChildIs(TREE3, BlockOf(4, 1), trust);
    hide TreeOk, Made, Added, At, Links, FlagsOk, Step, SyncOk, Total, BlockOf;
    accepted := Feed(node, 4, 1, trust);
  }

  /** The first four blocks after genesis: the node stays on block 3. */
  method Start() returns (node: Node)
    ensures fresh(node) && fresh(node.chain) && node.Valid() && node.chain.Valid() && node.hashPending.None? && node.hashSync == 1
    ensures node.chain.genesis == 1 && node.chain.Now() == Sight(TREE5, map[1 := 2, 2 := 3], 3, 3, DB3)
  {
    node := StartOn3();
    TreesTo5();
    GenesisAllows(TREE3, 4, 1);
    GenesisAllows(TREE4, 5, 4);
    var s := Sight(TREE3, map[1 := 2, 2 := 3], 3, 3, DB3);
    Add45(s);
    Add45(s.(index := TREE4));
    hide TreeOk, Made, Added, At, Links, FlagsOk, Step, SyncOk, Total;
    var _ := Feed(node, 4, 1, 1);
    var _ := Feed(node, 5, 4, 1);
  }

  /** Block 4 is a checkpoint after the genesis block, off the path to block 3, and block 6 respects it. */
  lemma ToCheckpoint()
    ensures Holds(TREE5) && StrictlyDescends(TREE5, 1, 4, 1) && !Ancestor(TREE5, 1, 4, 3) && SyncOk(TREE5, 1, 4, 6, 5)
  {
    AllHold();
    Paths(TREE5);
  }

  lemma NextRespects()
    ensures Holds(TREE6) && SyncOk(TREE6, 1, 4, 7, 6)
  {
    AllHold();
    PathOf6();
  }

  /** The best block is 6, while the links and the database are at its parent 5: the links do not describe the chain
      of the best block, its recorded supply is not the unspent value, and no call has failed. */
  method Run() returns (node: Node, switched: bool, accepted: bool)
    ensures fresh(node) && fresh(node.chain) && node.Valid() && node.chain.Valid() && switched && accepted
    ensures node.chain.best == 6 && node.chain.disk.best == 5 && !node.chain.InSync() && !node.chain.Linked()
    ensures Total(node.chain.db.tx) != node.chain.moneySupply[node.chain.best]
    ensures node.chain.genesis == 1 && node.hashSync == 4 && node.hashPending.None?
    ensures node.chain.index == TREE6 && node.chain.db.tx == DB5
  {
    node := Start();
    ToCheckpoint();
    To4(map[1 := 2, 2 := 3]);
    node.chain.InMainChainIsOnPath(4);
    hide TreeOk, Added, Switched, At, Links, FlagsOk, Step, SyncOk, Path, Ancestor, Total, StrictlyDescends;
    switched := node.ProcessSyncCheckpoint(Lenient(), 4);
    Add6(node.chain.pnext);
    accepted := Feed(node, 6, 5, 1);
    node.chain.LinkedInSync();
    TotalOfDB5();
  }

  /** One more block, and the node believes itself in sync: links and database are not those of its chain, and the
      recorded supply is still wrong. Every block of the run has the bits, the time and the trust the code demands. */
  method RunOn() returns (node: Node, accepted: bool)
    ensures fresh(node) && fresh(node.chain) && node.Valid() && accepted
    ensures node.chain.best == 7 && node.chain.InSync() && !node.chain.Valid()
    ensures Total(node.chain.db.tx) != node.chain.moneySupply[node.chain.best]
    ensures Sprouted(node.chain.index) && forall h :: h in node.chain.index && node.chain.index[h].prev.Some? ==> Demanded(node.chain.index, h)
  {
    hide TreeOk, Added, Switched, At, Links, FlagsOk, Step, SyncOk, Path, Ancestor, Total, Made, Demanded, BlockOf, EntryOf;
    var switched;
    node, switched, accepted := Run();
    NextRespects();
    Add7(node.chain.pnext);
    TreesTo7();
    accepted := Feed(node, 7, 6, 1);
    forall h | h in TREE7 && TREE7[h].prev.Some? ensures Demanded(TREE7, h) { MadeFits(TREE7, h); }
  }
}

/** Switching chains, stated on values: what SetBestChain and AddToBlockIndex make of the block index, the pnext
    links, the best block and the database, in every state the node can be in. */
module Switching {
  import opened Basics
  import opened Ledger
  import opened Sequences
  import opened Supply
  import opened BlockTree
  import opened Validation
  import opened Replay

  // ------------------------------------------------------------ runs of blocks

  /** Connect blocks one after the other, each under the acceptance rules. */
  ghost function ConnectMany(rules: Rules, index: Index, genesis: Hash, db: TxDb, hs: seq<Hash>): Option<TxDb>
    requires TreeOk(index, genesis) && Indexed(index, hs)
  {
    if hs == [] then Some(db) else
    var h := hs[|hs| - 1];
    match ConnectMany(rules, index, genesis, db, hs[..|hs| - 1])
    case None => None
    case Some(d) =>
      if Connects(rules, index, genesis, h, d) then ConnectTxs(d, h, index[h].block.vtx) else None
  }

  /** Disconnect blocks one after the other. */
  function DisconnectMany(index: Index, db: TxDb, hs: seq<Hash>): Option<TxDb>
    requires Indexed(index, hs)
  {
    if hs == [] then Some(db) else
    match DisconnectMany(index, db, hs[..|hs| - 1])
    case None => None
    case Some(d) => DisconnectTxs(d, index[hs[|hs| - 1]].block.vtx)
  }

  /** Disconnect one list of blocks, then connect another. */
  ghost function Switch(rules: Rules, index: Index, genesis: Hash, db: TxDb, down: seq<Hash>, up: seq<Hash>): Option<TxDb>
    requires TreeOk(index, genesis) && Indexed(index, down) && Indexed(index, up)
  {
    match DisconnectMany(index, db, down)
    case None => None
    case Some(d) => ConnectMany(rules, index, genesis, d, up)
  }

  /** The index after leaving the branch of `from` down to the fork and following that of `to`. */
  ghost function ReorgResult(rules: Rules, index: Index, genesis: Hash, db: TxDb, from: Hash, to: Hash): Option<TxDb>
    requires TreeOk(index, genesis) && from in index && to in index
  {
    PathShape(index, genesis, from);
    PathShape(index, genesis, to);
    var p, q := Path(index, genesis, from), Path(index, genesis, to);
    var k := CommonLen(p, q);
    Switch(rules, index, genesis, db, Reversed(p[k..]), q[k..])
  }

  lemma {:induction false} ConnectManyPrefix(rules: Rules, index: Index, genesis: Hash, db: TxDb, hs: seq<Hash>, n: nat)
    requires TreeOk(index, genesis) && Indexed(index, hs) && n <= |hs|
    requires ConnectMany(rules, index, genesis, db, hs).Some?
    ensures ConnectMany(rules, index, genesis, db, hs[..n]).Some?
    decreases |hs|
  {
    hide TreeOk, Connects, ConnectTxs;
    if n == |hs| {
      assert hs[..n] == hs;
    } else {
      ConnectManyPrefix(rules, index, genesis, db, hs[..|hs| - 1], n);
      assert hs[..|hs| - 1][..n] == hs[..n];
    }
  }

  lemma {:induction false} DisconnectManyPrefix(index: Index, db: TxDb, hs: seq<Hash>, n: nat)
    requires Indexed(index, hs) && n <= |hs| && DisconnectMany(index, db, hs).Some?
    ensures DisconnectMany(index, db, hs[..n]).Some?
    decreases |hs|
  {
    if n == |hs| {
      assert hs[..n] == hs;
    } else {
      DisconnectManyPrefix(index, db, hs[..|hs| - 1], n);
      assert hs[..|hs| - 1][..n] == hs[..n];
    }
  }

  lemma ConnectManyNext(rules: Rules, index: Index, genesis: Hash, db: TxDb, hs: seq<Hash>, i: nat)
    requires TreeOk(index, genesis) && Indexed(index, hs) && i < |hs|
    requires ConnectMany(rules, index, genesis, db, hs[..i]).Some?
    ensures var d := ConnectMany(rules, index, genesis, db, hs[..i]).value;
            if Connects(rules, index, genesis, hs[i], d)
            then ConnectMany(rules, index, genesis, db, hs[..i + 1]) == ConnectTxs(d, hs[i], index[hs[i]].block.vtx)
            else ConnectMany(rules, index, genesis, db, hs).None?
  {
    assert hs[..i + 1][..i] == hs[..i];
    if ConnectMany(rules, index, genesis, db, hs).Some? { ConnectManyPrefix(rules, index, genesis, db, hs, i + 1); }
  }

  lemma DisconnectManyNext(index: Index, db: TxDb, hs: seq<Hash>, i: nat)
    requires Indexed(index, hs) && i < |hs| && DisconnectMany(index, db, hs[..i]).Some?
    ensures var r := DisconnectTxs(DisconnectMany(index, db, hs[..i]).value, index[hs[i]].block.vtx);
            && DisconnectMany(index, db, hs[..i + 1]) == r
            && (r.None? ==> DisconnectMany(index, db, hs).None?)
  {
    assert hs[..i + 1][..i] == hs[..i];
    if DisconnectMany(index, db, hs).Some? { DisconnectManyPrefix(index, db, hs, i + 1); }
  }

  /** Connect blocks up to the first one that does not connect: how many did, and the index they leave. */
  ghost function ConnectRun(rules: Rules, index: Index, genesis: Hash, db: TxDb, hs: seq<Hash>): (r: (nat, TxDb))
    requires TreeOk(index, genesis) && Indexed(index, hs)
    ensures r.0 <= |hs|
  {
    if hs == [] then (0, db) else
    var h := hs[|hs| - 1];
    var (j, d) := ConnectRun(rules, index, genesis, db, hs[..|hs| - 1]);
    if j == |hs| - 1 && Connects(rules, index, genesis, h, d) then
      AcceptedConnect(rules, index, genesis, h, d, index[h].block.vtx);
      (j + 1, ConnectTxs(d, h, index[h].block.vtx).value)
    else (j, d)
  }

  lemma ConnectsAccepts(rules: Rules, index: Index, genesis: Hash, h: Hash, db: TxDb)
    requires TreeOk(index, genesis) && h in index && Connects(rules, index, genesis, h, db)
    ensures ConnectTxs(db, h, index[h].block.vtx).Some?
  {
    AcceptedConnect(rules, index, genesis, h, db, index[h].block.vtx);
  }

  /** The run gets to the end exactly when all blocks connect. */
  lemma {:induction false} RunIsMany(rules: Rules, index: Index, genesis: Hash, db: TxDb, hs: seq<Hash>)
    requires TreeOk(index, genesis) && Indexed(index, hs)
    ensures var (j, d) := ConnectRun(rules, index, genesis, db, hs);
            ConnectMany(rules, index, genesis, db, hs) == if j == |hs| then Some(d) else None
  {
    hide TreeOk, Connects, ConnectTxs;
    if hs != [] {
      var h, d := hs[|hs| - 1], ConnectRun(rules, index, genesis, db, hs[..|hs| - 1]).1;
      RunIsMany(rules, index, genesis, db, hs[..|hs| - 1]);
      if Connects(rules, index, genesis, h, d) { ConnectsAccepts(rules, index, genesis, h, d); }
    }
  }

  /** A block that does not connect after the first j of a list ends the run there. */
  lemma {:induction false} RunStops(rules: Rules, index: Index, genesis: Hash, db: TxDb, hs: seq<Hash>, j: nat, d: TxDb)
    requires TreeOk(index, genesis) && Indexed(index, hs) && j < |hs|
    requires ConnectMany(rules, index, genesis, db, hs[..j]) == Some(d) && !Connects(rules, index, genesis, hs[j], d)
    ensures ConnectRun(rules, index, genesis, db, hs) == (j, d)
    decreases |hs|
  {
    hide TreeOk, Connects, ConnectTxs;
    var init := hs[..|hs| - 1];
    if j == |hs| - 1 {
      RunIsMany(rules, index, genesis, db, init);
    } else {
      assert init[..j] == hs[..j];
      RunStops(rules, index, genesis, db, init, j, d);
    }
  }

  // ------------------------------------------------------------ links

  /** The links after those into the given blocks are cut, one after the other. */
  function Cut(index: Index, links: map<Hash, Hash>, hs: seq<Hash>): map<Hash, Hash>
    requires Indexed(index, hs)
  {
    if hs == [] then links else
    var m, b := Cut(index, links, hs[..|hs| - 1]), index[hs[|hs| - 1]];
    if b.prev.Some? then m - {b.prev.value} else m
  }

  /** The links after those into the given blocks are set, one after the other. */
  function Tie(index: Index, links: map<Hash, Hash>, hs: seq<Hash>): map<Hash, Hash>
    requires Indexed(index, hs)
  {
    if hs == [] then links else
    var m, h := Tie(index, links, hs[..|hs| - 1]), hs[|hs| - 1];
    if index[h].prev.Some? then m[index[h].prev.value := h] else m
  }

  /** A sequence of distinct indexed blocks, each the parent of the next. */
  ghost predicate IsPath(index: Index, p: seq<Hash>) {
    Distinct(p) && Indexed(index, p) && forall i :: 0 < i < |p| ==> index[p[i]].prev == Some(p[i - 1])
  }

  lemma PathFacts(index: Index, genesis: Hash, h: Hash)
    requires TreeOk(index, genesis) && h in index
    ensures IsPath(index, Path(index, genesis, h))
  {
    var p := Path(index, genesis, h);
    PathDistinct(index, genesis, h);
    PathShape(index, genesis, h);
    forall i | 0 < i < |p| ensures index[p[i]].prev == Some(p[i - 1]) { PathParent(index, genesis, h, i); }
  }

  lemma ExtendPath(index: Index, genesis: Hash, base: Hash, h: Hash)
    requires TreeOk(index, genesis) && base in index && h in index && index[h].prev == Some(base)
    ensures var p := Path(index, genesis, base);
            && Path(index, genesis, h) == p + [h] && h !in p && p != [] && p[|p| - 1] == base
            && Links(p + [h]) == Links(p)[base := h]
  {
    var p := Path(index, genesis, base);
    PathShape(index, genesis, base);
    assert (p + [h])[..|p + [h]| - 1] == p;
  }

  /** The index entry of a block whose parent is indexed. */
  function ChildOf(index: Index, block: Block, blockTrust: nat): BlockIndex
    requires block.prevHash in index
  {
    BlockIndex(Some(block.prevHash), index[block.prevHash].height + 1, index[block.prevHash].trust + blockTrust, block)
  }

  lemma {:induction false} CutPath(index: Index, p: seq<Hash>, k: nat)
    requires IsPath(index, p) && 0 < k <= |p|
    ensures Indexed(index, Reversed(p[k..])) && Cut(index, Links(p), Reversed(p[k..])) == Links(p[..k])
    decreases |p| - k
  {
    hide Links;
    if k == |p| {
      assert p[..k] == p && Reversed(p[k..]) == [];
    } else {
      CutPath(index, p, k + 1);
      assert p[k..] == [p[k]] + p[k + 1..];
      ReversedCons(p[k], p[k + 1..]);
      LinksCut(p[..k + 1]);
      assert p[..k + 1][..k] == p[..k];
      assert Reversed(p[k..])[..|p| - k - 1] == Reversed(p[k + 1..]);
    }
  }

  lemma PathStep(index: Index, q: seq<Hash>, m: nat)
    requires IsPath(index, q) && 0 < m < |q|
    ensures q[m] in index && index[q[m]].prev == Some(q[m - 1])
  {
  }

  lemma TieNone(index: Index, links: map<Hash, Hash>)
    ensures Tie(index, links, []) == links
  {
  }

  lemma TieSnoc(index: Index, links: map<Hash, Hash>, hs: seq<Hash>, h: Hash)
    requires Indexed(index, hs) && h in index && index[h].prev.Some?
    ensures Indexed(index, hs + [h]) && Tie(index, links, hs + [h]) == Tie(index, links, hs)[index[h].prev.value := h]
  {
    assert (hs + [h])[..|hs|] == hs;
  }

  lemma {:induction false} TiePath(index: Index, q: seq<Hash>, k: nat, n: nat)
    requires IsPath(index, q) && 0 < k && k + n <= |q|
    ensures Indexed(index, q[k..k + n]) && Tie(index, Links(q[..k]), q[k..k + n]) == Links(q[..k + n])
    decreases n
  {
    hide Tie, Links, IsPath;
    if n > 0 {
      var m := k + n - 1;
      TiePath(index, q, k, n - 1);
      PathStep(index, q, m);
      TieSnoc(index, Links(q[..k]), q[k..m], q[m]);
      LinksSnoc(q[..m], q[m]);
      assert q[k..m] + [q[m]] == q[k..k + n] && q[..m] + [q[m]] == q[..k + n];
    } else {
      assert q[k..k + n] == [];
      TieNone(index, Links(q[..k]));
    }
  }

  lemma {:induction false} CutKeys(index: Index, links: map<Hash, Hash>, hs: seq<Hash>)
    requires Indexed(index, hs)
    ensures forall x :: x in Cut(index, links, hs) ==> x in links && forall i :: 0 <= i < |hs| ==> index[hs[i]].prev != Some(x)
  {
    if hs != [] { CutKeys(index, links, hs[..|hs| - 1]); }
  }

  lemma {:induction false} TieKeys(index: Index, links: map<Hash, Hash>, hs: seq<Hash>)
    requires Indexed(index, hs)
    ensures forall x :: x in Tie(index, links, hs) ==> x in links || exists i :: 0 <= i < |hs| && index[hs[i]].prev == Some(x)
  {
    if hs != [] {
      var init := hs[..|hs| - 1];
      TieKeys(index, links, init);
      forall x | x in Tie(index, links, hs) && x !in links ensures exists i :: 0 <= i < |hs| && index[hs[i]].prev == Some(x) {
        if x in Tie(index, links, init) {
          var i :| 0 <= i < |init| && index[init[i]].prev == Some(x);
          assert index[hs[i]].prev == Some(x);
        } else {
          assert index[hs[|hs| - 1]].prev == Some(x);
        }
      }
    }
  }

  /** Every block with a link is a proper ancestor of b: nothing is flagged as main chain that is not below b. */
  ghost predicate FlagsOk(index: Index, genesis: Hash, links: map<Hash, Hash>, b: Hash)
    requires TreeOk(index, genesis) && b in index
  {
    forall x :: x in links ==> Below(index, genesis, x, b)
  }

  ghost predicate Below(index: Index, genesis: Hash, a: Hash, b: Hash)
    requires TreeOk(index, genesis) && b in index
  {
    a in index && Ancestor(index, genesis, a, b) && a != b
  }

  lemma BelowAt(index: Index, genesis: Hash, a: Hash, b: Hash)
    requires TreeOk(index, genesis) && b in index
    ensures Below(index, genesis, a, b) <==>
            a in index && index[a].height < index[b].height && |Path(index, genesis, b)| == index[b].height + 1
            && Path(index, genesis, b)[index[a].height] == a
  {
    PathShape(index, genesis, b);
  }

  /** What is below an ancestor is below the block. */
  lemma BelowUp(index: Index, genesis: Hash, a: Hash, b: Hash, c: Hash)
    requires TreeOk(index, genesis) && b in index && c in index
    requires Below(index, genesis, a, b) && Ancestor(index, genesis, b, c)
    ensures Below(index, genesis, a, c)
  {
    AncestorTransitive(index, genesis, a, b, c);
    PathShape(index, genesis, c);
    AncestorAt(index, genesis, b, c);
    BelowAt(index, genesis, a, b);
  }

  lemma FlagsUp(index: Index, genesis: Hash, links: map<Hash, Hash>, b: Hash, c: Hash)
    requires TreeOk(index, genesis) && b in index && c in index
    requires FlagsOk(index, genesis, links, b) && Ancestor(index, genesis, b, c)
    ensures FlagsOk(index, genesis, links, c)
  {
    hide Below, Path, TreeOk;
    forall x | x in links ensures Below(index, genesis, x, c) { BelowUp(index, genesis, x, b, c); }
  }

  /** The links after leaving the branch of from for that of to. */
  ghost function Relinked(index: Index, genesis: Hash, links: map<Hash, Hash>, from: Hash, to: Hash): map<Hash, Hash>
    requires TreeOk(index, genesis) && from in index && to in index
  {
    PathShape(index, genesis, from);
    PathShape(index, genesis, to);
    var p, q := Path(index, genesis, from), Path(index, genesis, to);
    var k := CommonLen(p, q);
    Tie(index, Cut(index, links, Reversed(p[k..])), q[k..])
  }

  lemma CommonGenesis(index: Index, genesis: Hash, from: Hash, to: Hash)
    requires TreeOk(index, genesis) && from in index && to in index
    ensures CommonLen(Path(index, genesis, from), Path(index, genesis, to)) > 0
  {
    PathShape(index, genesis, from);
    PathShape(index, genesis, to);
  }

  /** Links that are the path stay the path. */
  lemma RelinkPath(index: Index, genesis: Hash, from: Hash, to: Hash)
    requires TreeOk(index, genesis) && from in index && to in index
    ensures Relinked(index, genesis, Links(Path(index, genesis, from)), from, to) == Links(Path(index, genesis, to))
  {
    var p, q := Path(index, genesis, from), Path(index, genesis, to);
    var k := CommonLen(p, q);
    CommonGenesis(index, genesis, from, to);
    PathFacts(index, genesis, from);
    PathFacts(index, genesis, to);
    hide Path, TreeOk, IsPath, CommonLen, Cut, Tie, Links, Reversed;
    RelinkSeq(index, p, q, k);
  }

  lemma RelinkSeq(index: Index, p: seq<Hash>, q: seq<Hash>, k: nat)
    requires IsPath(index, p) && IsPath(index, q) && 0 < k <= |p| && k <= |q| && p[..k] == q[..k]
    ensures Indexed(index, Reversed(p[k..])) && Indexed(index, q[k..])
    ensures Tie(index, Cut(index, Links(p), Reversed(p[k..])), q[k..]) == Links(q)
  {
    hide IsPath, Cut, Tie, Links, Reversed;
    CutPath(index, p, k);
    TiePath(index, q, k, |q| - k);
    assert q[k..k + (|q| - k)] == q[k..];
    assert q[..k + (|q| - k)] == q;
  }

  /** A block whose link survives the cutting of p above k is below the fork. */
  lemma CutBelow(index: Index, p: seq<Hash>, k: nat, links: map<Hash, Hash>, x: Hash, i: nat)
    requires IsPath(index, p) && 0 < k <= |p| && i < |p| - 1 && p[i] == x
    requires Indexed(index, Reversed(p[k..])) && x in Cut(index, links, Reversed(p[k..]))
    ensures x in links && i + 1 < k
  {
    var down, j := Reversed(p[k..]), |p| - 1 - (i + 1);
    assert i + 1 >= k ==> down[j] == p[k..][i + 1 - k] == p[i + 1] && index[down[j]].prev == Some(x);
    CutKeys(index, links, down);
  }

  /** Flags that are sound for the branch left are sound for the branch entered. */
  lemma RelinkFlags(index: Index, genesis: Hash, links: map<Hash, Hash>, from: Hash, to: Hash)
    requires TreeOk(index, genesis) && from in index && to in index && FlagsOk(index, genesis, links, from)
    ensures FlagsOk(index, genesis, Relinked(index, genesis, links, from, to), to)
  {
    var p, q := Path(index, genesis, from), Path(index, genesis, to);
    var k := CommonLen(p, q);
    CommonGenesis(index, genesis, from, to);
    PathFacts(index, genesis, from);
    PathFacts(index, genesis, to);
    PathShape(index, genesis, from);
    PathShape(index, genesis, to);
    var cut := Cut(index, links, Reversed(p[k..]));
    TieKeys(index, cut, q[k..]);
    CutKeys(index, links, Reversed(p[k..]));
    hide Path, TreeOk, IsPath, CommonLen, Cut, Tie, Below, Reversed;
    forall x | x in Relinked(index, genesis, links, from, to) ensures Below(index, genesis, x, to) {
      if x in cut {
        assert Below(index, genesis, x, from);
        StillBelow(index, genesis, links, from, to, k, x);
      } else {
        var i :| 0 <= i < |q[k..]| && index[q[k..][i]].prev == Some(x);
        PathParent(index, genesis, to, k + i);
        BelowAt(index, genesis, x, to);
      }
    }
  }

  /** A link that survives the cut starts below the fork, on both branches. */
  lemma StillBelow(index: Index, genesis: Hash, links: map<Hash, Hash>, from: Hash, to: Hash, k: nat, x: Hash)
    requires TreeOk(index, genesis) && from in index && to in index && Below(index, genesis, x, from)
    requires var p, q := Path(index, genesis, from), Path(index, genesis, to);
             && 0 < k <= |p| && k <= |q| && p[..k] == q[..k] && Indexed(index, Reversed(p[k..])) && x in Cut(index, links, Reversed(p[k..]))
    ensures Below(index, genesis, x, to)
  {
    var p, q := Path(index, genesis, from), Path(index, genesis, to);
    PathFacts(index, genesis, from);
    PathShape(index, genesis, from);
    PathShape(index, genesis, to);
    hide Path, TreeOk, IsPath, Cut, Below, Reversed;
    BelowAt(index, genesis, x, from);
    CutBelow(index, p, k, links, x, index[x].height);
    assert p[..k][index[x].height] == q[..k][index[x].height];
    BelowAt(index, genesis, x, to);
  }

  // ------------------------------------------------------------ the node's switch

  /** The lowest block of h's branch whose parent has no more than the given trust. */
  function Intermediate(index: Index, genesis: Hash, h: Hash, trust: nat): (im: Hash)
    requires TreeOk(index, genesis) && h in index
    ensures im in index && index[im].height <= index[h].height
    decreases index[h].height
  {
    if h != genesis && index[Parent(index, genesis, h)].trust > trust
    then Intermediate(index, genesis, Parent(index, genesis, h), trust) else h
  }

  /** The intermediate block is an ancestor of h, is the genesis block or has a parent of no more than the given trust,
      and every block between it and h has a parent of more. */
  lemma {:induction false} IntermediateIs(index: Index, genesis: Hash, h: Hash, trust: nat)
    requires TreeOk(index, genesis) && h in index
    ensures var im, path := Intermediate(index, genesis, h, trust), Path(index, genesis, h);
            && |path| == index[h].height + 1 && path[index[im].height] == im
            && (im == genesis || index[Parent(index, genesis, im)].trust <= trust)
            && forall i :: index[im].height <= i < |path| - 1 && path[i] in index ==> index[path[i]].trust > trust
    decreases index[h].height
  {
    PathShape(index, genesis, h);
    if h != genesis && index[Parent(index, genesis, h)].trust > trust {
      var prev := Parent(index, genesis, h);
      IntermediateIs(index, genesis, prev, trust);
      assert Path(index, genesis, h) == Path(index, genesis, prev) + [h];
      PathShape(index, genesis, prev);
    }
  }

  /** SetBestChain succeeds: the block connects, or the reorganization to the intermediate block works. */
  ghost predicate Switches(rules: Rules, index: Index, genesis: Hash, db: TxDb, best: Hash, tip: Hash)
    requires TreeOk(index, genesis) && best in index && tip in index
  {
    if index[tip].prev == Some(best) then Connects(rules, index, genesis, tip, db)
    else ReorgResult(rules, index, genesis, db, best, Intermediate(index, genesis, tip, index[best].trust)).Some?
  }

  /** The blocks of tip's branch above its ancestor im. */
  ghost function Above(index: Index, genesis: Hash, im: Hash, tip: Hash): seq<Hash>
    requires TreeOk(index, genesis) && im in index && tip in index && index[im].height <= index[tip].height
  {
    PathShape(index, genesis, im);
    PathShape(index, genesis, tip);
    Path(index, genesis, tip)[index[im].height + 1..]
  }

  lemma AboveIndexed(index: Index, genesis: Hash, im: Hash, tip: Hash)
    requires TreeOk(index, genesis) && im in index && tip in index && index[im].height <= index[tip].height
    ensures Indexed(index, Above(index, genesis, im, tip))
  {
    PathShape(index, genesis, tip);
  }

  /** The blocks above the intermediate one all connect, in order, after the reorganization. */
  ghost predicate PostponedConnect(rules: Rules, index: Index, genesis: Hash, db: TxDb, best: Hash, tip: Hash)
  {
    && TreeOk(index, genesis) && best in index && tip in index && Switches(rules, index, genesis, db, best, tip)
    && (index[tip].prev != Some(best) ==>
      var im := Intermediate(index, genesis, tip, index[best].trust);
      AboveIndexed(index, genesis, im, tip);
      ConnectMany(rules, index, genesis, ReorgResult(rules, index, genesis, db, best, im).value,
                  Above(index, genesis, im, tip)).Some?)
  }

  /** What a switch reads and changes: the block index, the links, pindexBest, and of the database the recorded
      best block and the transaction index. */
  datatype Sight = Sight(index: Index, links: map<Hash, Hash>, best: Hash, dbBest: Hash, tx: TxDb)

  ghost predicate SightOk(genesis: Hash, s: Sight) {
    && TreeOk(s.index, genesis) && s.best in s.index && s.dbBest in s.index
    && FlagsOk(s.index, genesis, s.links, s.best)
  }

  /** SetBestChain: whether it succeeds, and what it leaves. The best block becomes tip also when a postponed block
      does not connect; links and database then stop below it. */
  ghost function Switched(rules: Rules, genesis: Hash, s: Sight, tip: Hash): (bool, Sight)
    requires TreeOk(s.index, genesis) && s.best in s.index && tip in s.index
  {
    if !Switches(rules, s.index, genesis, s.tx, s.best, tip) then (false, s)
    else if s.index[tip].prev == Some(s.best) then
      ConnectsAccepts(rules, s.index, genesis, tip, s.tx);
      (true, Sight(s.index, s.links[s.best := tip], tip, tip, ConnectTxs(s.tx, tip, s.index[tip].block.vtx).value))
    else
      var im := Intermediate(s.index, genesis, tip, s.index[s.best].trust);
      var d := ReorgResult(rules, s.index, genesis, s.tx, s.best, im).value;
      (true, Postponed(rules, genesis, Sight(s.index, Relinked(s.index, genesis, s.links, s.best, im), tip, im, d), im, tip))
  }

  /** A switch to a branch, in terms of the list of postponed blocks. */
  lemma SwitchedByReorg(rules: Rules, genesis: Hash, s: Sight, tip: Hash, secondary: seq<Hash>)
    requires TreeOk(s.index, genesis) && s.best in s.index && tip in s.index && s.index[tip].prev != Some(s.best)
    requires Path(s.index, genesis, tip)
             == Path(s.index, genesis, Intermediate(s.index, genesis, tip, s.index[s.best].trust)) + Reversed(secondary)
    ensures var im, up := Intermediate(s.index, genesis, tip, s.index[s.best].trust), Reversed(secondary);
            && Indexed(s.index, up)
            && Switched(rules, genesis, s, tip) ==
               match ReorgResult(rules, s.index, genesis, s.tx, s.best, im)
               case None => (false, s)
               case Some(d) =>
                 (true, AfterRun(rules, genesis, Sight(s.index, Relinked(s.index, genesis, s.links, s.best, im), tip, im, d), up))
  {
    var im := Intermediate(s.index, genesis, tip, s.index[s.best].trust);
    PostponedFacts(s.index, genesis, im, tip, secondary);
    IntermediateBelow(s.index, genesis, tip, s.index[s.best].trust);
    PathShape(s.index, genesis, tip);
    PathShape(s.index, genesis, im);
    hide TreeOk, Path, Reversed, ReorgResult, Relinked, Tie, ConnectRun, Intermediate;
    var p := Path(s.index, genesis, im);
    assert (p + Reversed(secondary))[|p|..] == Reversed(secondary);
  }

  /** A switch leaves the block index alone; it succeeds exactly when it can, and then tip is the best block. */
  lemma SwitchedShape(rules: Rules, genesis: Hash, s: Sight, tip: Hash)
    requires TreeOk(s.index, genesis) && s.best in s.index && tip in s.index
    ensures var (ok, s') := Switched(rules, genesis, s, tip);
            && (ok <==> Switches(rules, s.index, genesis, s.tx, s.best, tip)) && s'.index == s.index
            && (if ok then s'.best == tip else s' == s)
    ensures s.index[tip].prev == Some(s.best) ==>
              Switched(rules, genesis, s, tip) ==
                if Connects(rules, s.index, genesis, tip, s.tx)
                then match ConnectTxs(s.tx, tip, s.index[tip].block.vtx)
                     case Some(d) => (true, Sight(s.index, s.links[s.best := tip], tip, tip, d))
                     case None => (false, s)
                else (false, s)
  {
    if s.index[tip].prev == Some(s.best) && Connects(rules, s.index, genesis, tip, s.tx) {
      ConnectsAccepts(rules, s.index, genesis, tip, s.tx);
    }
  }

  /** Connect the blocks above im as far as they go. */
  ghost function Postponed(rules: Rules, genesis: Hash, s: Sight, im: Hash, tip: Hash): Sight
    requires TreeOk(s.index, genesis) && im in s.index && tip in s.index && s.index[im].height <= s.index[tip].height
  {
    AboveIndexed(s.index, genesis, im, tip);
    AfterRun(rules, genesis, s, Above(s.index, genesis, im, tip))
  }

  /** As many of the blocks `up` as connect, one on the other, are connected and linked. */
  ghost function AfterRun(rules: Rules, genesis: Hash, s: Sight, up: seq<Hash>): Sight
    requires TreeOk(s.index, genesis) && Indexed(s.index, up)
  {
    var (j, e) := ConnectRun(rules, s.index, genesis, s.tx, up);
    Sight(s.index, Tie(s.index, s.links, up[..j]), s.best, if j == 0 then s.dbBest else up[j - 1], e)
  }

  lemma AfterRunBest(rules: Rules, genesis: Hash, s: Sight, up: seq<Hash>, best: Hash)
    requires TreeOk(s.index, genesis) && Indexed(s.index, up)
    ensures AfterRun(rules, genesis, s.(best := best), up) == AfterRun(rules, genesis, s, up).(best := best)
    ensures AfterRun(rules, genesis, s, up).index == s.index
  {
    hide ConnectRun, Tie;
  }

  /** AddToBlockIndex: a known block is refused; a new one is indexed, and the node switches to it when it has more
      trust than the best block. */
  ghost function Added(rules: Rules, genesis: Hash, s: Sight, block: Block, trust: nat): (bool, Sight)
    requires TreeOk(s.index, genesis) && s.best in s.index && block.prevHash in s.index
  {
    if block.hash in s.index then (false, s)
    else
      ChildKeepsTree(s.index, genesis, block, trust);
      var s' := s.(index := s.index[block.hash := ChildOf(s.index, block, trust)]);
      if s'.index[block.hash].trust > s'.index[s.best].trust then Switched(rules, genesis, s', block.hash) else (true, s')
  }

  lemma ChildKeepsTree(index: Index, genesis: Hash, block: Block, trust: nat)
    requires TreeOk(index, genesis) && block.prevHash in index && block.hash !in index
    ensures TreeOk(index[block.hash := ChildOf(index, block, trust)], genesis)
  {
  }

  lemma OwnAncestor(index: Index, genesis: Hash, h: Hash)
    requires TreeOk(index, genesis) && h in index
    ensures Ancestor(index, genesis, h, h)
  {
    PathShape(index, genesis, h);
  }

  /** A new entry hangs under its parent, one higher, with its own trust added to the parent's. */
  lemma ChildIs(index: Index, block: Block, trust: nat)
    requires block.prevHash in index && block.hash !in index
    ensures var index' := index[block.hash := ChildOf(index, block, trust)];
            && index'.Keys == index.Keys + {block.hash} && (forall h :: h in index ==> index'[h] == index[h])
            && index'[block.hash].prev == Some(block.prevHash) && index'[block.hash].block == block
            && index'[block.hash].height == index[block.prevHash].height + 1
            && index'[block.hash].trust == index[block.prevHash].trust + trust
  {
  }

  /** No indexed block has more trust than the best one. */
  ghost predicate Heaviest(s: Sight) { s.best in s.index && forall h :: h in s.index ==> s.index[h].trust <= s.index[s.best].trust }

  /** From a node on the heaviest chain, a new block leaves it on the heaviest chain if and only if no switch fails. */
  lemma AddedHeaviest(rules: Rules, genesis: Hash, s: Sight, block: Block, trust: nat)
    requires TreeOk(s.index, genesis) && block.prevHash in s.index && block.hash !in s.index && Heaviest(s)
    ensures Heaviest(Added(rules, genesis, s, block, trust).1) <==> Added(rules, genesis, s, block, trust).0
  {
    hide Switched, TreeOk, ChildOf, Switches;
    var s' := s.(index := s.index[block.hash := ChildOf(s.index, block, trust)]);
    ChildIs(s.index, block, trust);
    ChildKeepsTree(s.index, genesis, block, trust);
    SwitchedShape(rules, genesis, s', block.hash);
  }

  /** A new block is indexed under its parent whether or not the node switches to it, and the best block is the old
      one or the new one. */
  lemma AddedShape(rules: Rules, genesis: Hash, s: Sight, block: Block, trust: nat)
    requires TreeOk(s.index, genesis) && s.best in s.index && block.prevHash in s.index && block.hash !in s.index
    ensures var (ok, s') := Added(rules, genesis, s, block, trust);
            && s'.index == s.index[block.hash := ChildOf(s.index, block, trust)]
            && (s'.best == s.best || s'.best == block.hash) && (!ok ==> s'.best == s.best)
  {
    var s' := s.(index := s.index[block.hash := ChildOf(s.index, block, trust)]);
    ChildKeepsTree(s.index, genesis, block, trust);
    hide Switched, TreeOk;
    SwitchedShape(rules, genesis, s', block.hash);
  }

  lemma {:induction false} IntermediateBelow(index: Index, genesis: Hash, h: Hash, trust: nat)
    requires TreeOk(index, genesis) && h in index
    ensures Ancestor(index, genesis, Intermediate(index, genesis, h, trust), h)
    decreases index[h].height
  {
    OwnAncestor(index, genesis, h);
    if h != genesis && index[Parent(index, genesis, h)].trust > trust {
      IntermediateBelow(index, genesis, Parent(index, genesis, h), trust);
    }
  }

  /** Tying blocks of tip's branch flags only blocks below tip. */
  lemma TieFlags(index: Index, genesis: Hash, links: map<Hash, Hash>, im: Hash, tip: Hash, j: nat)
    requires TreeOk(index, genesis) && im in index && tip in index && Ancestor(index, genesis, im, tip)
    requires FlagsOk(index, genesis, links, im) && index[im].height <= index[tip].height
    requires j <= |Above(index, genesis, im, tip)| && Indexed(index, Above(index, genesis, im, tip)[..j])
    ensures FlagsOk(index, genesis, Tie(index, links, Above(index, genesis, im, tip)[..j]), tip)
  {
    hide Path, TreeOk, Below, Tie, Above, Ancestor;
    var up := Above(index, genesis, im, tip);
    FlagsUp(index, genesis, links, im, tip);
    TieKeys(index, links, up[..j]);
    forall x | x in Tie(index, links, up[..j]) ensures Below(index, genesis, x, tip) {
      if x !in links {
        var i :| 0 <= i < |up[..j]| && index[up[..j][i]].prev == Some(x);
        ParentsBelow(index, genesis, im, tip, i);
      }
    }
  }

  /** The parent of a block above im is below tip. */
  lemma ParentsBelow(index: Index, genesis: Hash, im: Hash, tip: Hash, i: nat)
    requires TreeOk(index, genesis) && im in index && tip in index && index[im].height <= index[tip].height
    requires i < |Above(index, genesis, im, tip)|
    ensures var h := Above(index, genesis, im, tip)[i];
            h in index && index[h].prev.Some? && Below(index, genesis, index[h].prev.value, tip)
  {
    hide Path, TreeOk, Below;
    PathShape(index, genesis, tip);
    var n := index[im].height + 1 + i;
    PathParent(index, genesis, tip, n);
    BelowAt(index, genesis, Path(index, genesis, tip)[n - 1], tip);
  }

  /** In every state, a switch leaves only proper ancestors of the best block flagged. */
  lemma SwitchedOk(rules: Rules, genesis: Hash, s: Sight, tip: Hash)
    requires SightOk(genesis, s) && tip in s.index
    ensures SightOk(genesis, Switched(rules, genesis, s, tip).1)
  {
    if Switches(rules, s.index, genesis, s.tx, s.best, tip) {
      if s.index[tip].prev == Some(s.best) {
        NextFlags(s.index, genesis, s.links, tip);
      } else {
        var im := Intermediate(s.index, genesis, tip, s.index[s.best].trust);
        var links := Relinked(s.index, genesis, s.links, s.best, im);
        IntermediateBelow(s.index, genesis, tip, s.index[s.best].trust);
        RelinkFlags(s.index, genesis, s.links, s.best, im);
        AboveIndexed(s.index, genesis, im, tip);
        hide Path, TreeOk, FlagsOk, Relinked, Tie, ReorgResult, ConnectRun;
        var d := ReorgResult(rules, s.index, genesis, s.tx, s.best, im).value;
        var up := Above(s.index, genesis, im, tip);
        var j := ConnectRun(rules, s.index, genesis, d, up).0;
        TieFlags(s.index, genesis, links, im, tip, j);
      }
    }
  }

  lemma NextFlags(index: Index, genesis: Hash, links: map<Hash, Hash>, tip: Hash)
    requires TreeOk(index, genesis) && tip in index && index[tip].prev.Some? && index[tip].prev.value in index
    requires FlagsOk(index, genesis, links, index[tip].prev.value)
    ensures FlagsOk(index, genesis, links[index[tip].prev.value := tip], tip)
  {
    var prev := index[tip].prev.value;
    ExtendPath(index, genesis, prev, tip);
    OwnAncestor(index, genesis, prev);
    FlagsUp(index, genesis, links, prev, tip);
  }

  lemma AddedOk(rules: Rules, genesis: Hash, s: Sight, block: Block, trust: nat)
    requires SightOk(genesis, s) && block.prevHash in s.index
    ensures SightOk(genesis, Added(rules, genesis, s, block, trust).1)
  {
    if block.hash !in s.index {
      var index' := s.index[block.hash := ChildOf(s.index, block, trust)];
      ChildKeepsTree(s.index, genesis, block, trust);
      PathExtend(s.index, genesis, block.hash, index'[block.hash], s.best);
      assert SightOk(genesis, s.(index := index'));
      hide SightOk;
      if index'[block.hash].trust > index'[s.best].trust { SwitchedOk(rules, genesis, s.(index := index'), block.hash); }
    }
  }

  /** From a node that is in sync, with the path for its links: after a switch the links are the path to the block
      the database is at, which is the best block exactly when all postponed blocks connected. */
  lemma SwitchedLinks(rules: Rules, genesis: Hash, s: Sight, tip: Hash)
    requires TreeOk(s.index, genesis) && s.best in s.index && tip in s.index
    requires s.dbBest == s.best && s.links == Links(Path(s.index, genesis, s.best))
    ensures var s' := Switched(rules, genesis, s, tip).1;
            && s'.dbBest in s'.index && Ancestor(s'.index, genesis, s'.dbBest, s'.best)
            && s'.links == Links(Path(s'.index, genesis, s'.dbBest))
    ensures Switches(rules, s.index, genesis, s.tx, s.best, tip) ==>
              (Switched(rules, genesis, s, tip).1.dbBest == tip <==> PostponedConnect(rules, s.index, genesis, s.tx, s.best, tip))
  {
    OwnAncestor(s.index, genesis, s.best);
    OwnAncestor(s.index, genesis, tip);
    if Switches(rules, s.index, genesis, s.tx, s.best, tip) {
      if s.index[tip].prev == Some(s.best) {
        ExtendPath(s.index, genesis, s.best, tip);
      } else {
        var im := Intermediate(s.index, genesis, tip, s.index[s.best].trust);
        var d := ReorgResult(rules, s.index, genesis, s.tx, s.best, im).value;
        IntermediateBelow(s.index, genesis, tip, s.index[s.best].trust);
        RelinkPath(s.index, genesis, s.best, im);
        hide Path, TreeOk, Relinked, ReorgResult, Ancestor, Links;
        PostponedLinks(rules, genesis, Sight(s.index, Relinked(s.index, genesis, s.links, s.best, im), tip, im, d), im, tip);
      }
    }
  }

  lemma PostponedLinks(rules: Rules, genesis: Hash, s: Sight, im: Hash, tip: Hash)
    requires TreeOk(s.index, genesis) && im in s.index && tip in s.index && Ancestor(s.index, genesis, im, tip)
    requires s.dbBest == im && s.links == Links(Path(s.index, genesis, im)) && s.index[im].height <= s.index[tip].height
    ensures var s' := Postponed(rules, genesis, s, im, tip);
            && s'.dbBest in s'.index && Ancestor(s'.index, genesis, s'.dbBest, tip)
            && s'.links == Links(Path(s'.index, genesis, s'.dbBest))
    ensures Indexed(s.index, Above(s.index, genesis, im, tip))
    ensures Postponed(rules, genesis, s, im, tip).dbBest == tip <==>
            ConnectMany(rules, s.index, genesis, s.tx, Above(s.index, genesis, im, tip)).Some?
  {
    hide TreeOk, Path, Ancestor, ConnectRun, ConnectMany, Links, Tie, Above;
    var index, up := s.index, Above(s.index, genesis, im, tip);
    AboveIndexed(index, genesis, im, tip);
    var j := ConnectRun(rules, index, genesis, s.tx, up).0;
    RunIsMany(rules, index, genesis, s.tx, up);
    AboveAt(index, genesis, im, tip, j);
  }

  /** The first j blocks above im: the path to the last of them, and its links. */
  lemma AboveAt(index: Index, genesis: Hash, im: Hash, tip: Hash, j: nat)
    requires TreeOk(index, genesis) && im in index && tip in index && Ancestor(index, genesis, im, tip)
    requires index[im].height <= index[tip].height && j <= |Above(index, genesis, im, tip)|
    ensures var up := Above(index, genesis, im, tip);
            var last := if j == 0 then im else up[j - 1];
            && last in index && Ancestor(index, genesis, last, tip) && (last == tip <==> j == |up|)
            && Indexed(index, up[..j]) && Tie(index, Links(Path(index, genesis, im)), up[..j]) == Links(Path(index, genesis, last))
  {
    hide TreeOk, Path, Links, Tie, IsPath, Ancestor;
    var q, n := Path(index, genesis, tip), index[im].height + 1;
    LastAbove(index, genesis, im, tip, 0);
    LastAbove(index, genesis, im, tip, j);
    PathFacts(index, genesis, tip);
    PathPrefix(index, genesis, tip, n - 1);
    PathPrefix(index, genesis, tip, n - 1 + j);
    TieAbove(index, q, n, j);
  }

  lemma TieAbove(index: Index, q: seq<Hash>, n: nat, j: nat)
    requires IsPath(index, q) && 0 < n && n + j <= |q|
    ensures Indexed(index, q[n..][..j]) && Tie(index, Links(q[..n]), q[n..][..j]) == Links(q[..n + j])
  {
    TiePath(index, q, n, j);
    hide Tie, Links, IsPath;
    assert q[n..][..j] == q[n..n + j];
  }

  lemma LastAbove(index: Index, genesis: Hash, im: Hash, tip: Hash, j: nat)
    requires TreeOk(index, genesis) && im in index && tip in index && Ancestor(index, genesis, im, tip)
    requires index[im].height <= index[tip].height && j <= |Above(index, genesis, im, tip)|
    ensures var q, up := Path(index, genesis, tip), Above(index, genesis, im, tip);
            var last := if j == 0 then im else up[j - 1];
            && index[im].height + j < |q| && last == q[index[im].height + j]
            && last in index && Ancestor(index, genesis, last, tip) && (last == tip <==> j == |up|)
  {
    AncestorAt(index, genesis, im, tip);
    PathShape(index, genesis, tip);
    PathDistinct(index, genesis, tip);
    hide TreeOk, Path;
  }

  // ------------------------------------------------------------ a database that lost nothing

  /** Leaving a branch that reused no id cannot fail, and leads to the replay of what is left. */
  lemma {:induction false} DisconnectsToFork(index: Index, p: seq<Hash>, supply: map<Hash, int>, k: nat)
    requires Indexed(index, p) && 0 < k <= |p| && ChainOk(index, p, supply) && FreshAbove(index, p, k)
    ensures Indexed(index, Reversed(p[k..])) && ReplayPath(index, p).Some?
    ensures DisconnectMany(index, ReplayPath(index, p).value, Reversed(p[k..])) == ReplayPath(index, p[..k])
    decreases |p| - k
  {
    hide ReplayPath, ChainOk, Reversed, DisconnectTxs, FreshAt;
    ReplaysOk(index, p, supply);
    if k == |p| {
      assert p[..k] == p && p[k..] == [];
      NothingReversed<Hash>();
    } else {
      DisconnectsToFork(index, p, supply, k + 1);
      ChainPrefix(index, p, supply, k + 1);
      assert FreshAt(index, p, k);
      FreshPrefix(index, p, k);
      DisconnectExact(index, p[..k + 1], supply);
      assert p[..k + 1][..k] == p[..k];
      assert p[k..] == [p[k]] + p[k + 1..];
      ReversedCons(p[k], p[k + 1..]);
      DisconnectMore(index, ReplayPath(index, p).value, Reversed(p[k + 1..]), p[k]);
    }
  }

  lemma NothingReversed<T>()
    ensures Reversed<T>([]) == []
  {
  }

  lemma ReplaysOk(index: Index, p: seq<Hash>, supply: map<Hash, int>)
    requires Indexed(index, p) && ChainOk(index, p, supply)
    ensures ReplayPath(index, p).Some?
  {
  }

  lemma FreshPrefix(index: Index, p: seq<Hash>, k: nat)
    requires Indexed(index, p) && k < |p| && FreshAt(index, p, k)
    ensures FreshAt(index, p[..k + 1], k)
  {
    assert p[..k + 1][..k] == p[..k];
  }

  lemma DisconnectMore(index: Index, db: TxDb, hs: seq<Hash>, h: Hash)
    requires Indexed(index, hs) && h in index && DisconnectMany(index, db, hs).Some?
    ensures Indexed(index, hs + [h])
    ensures DisconnectMany(index, db, hs + [h]) == DisconnectTxs(DisconnectMany(index, db, hs).value, index[h].block.vtx)
  {
    assert (hs + [h])[..|hs|] == hs;
  }

  /** So a reorganization succeeds exactly when the new branch connects to the replay up to the fork. */
  lemma ReorgFromExact(rules: Rules, index: Index, genesis: Hash, supply: map<Hash, int>, db: TxDb, from: Hash, to: Hash)
    requires TreeOk(index, genesis) && from in index && to in index
    requires At(index, Path(index, genesis, from), supply, db) && ExactlyAt(index, Path(index, genesis, from), db)
    requires FreshAbove(index, Path(index, genesis, from), CommonLen(Path(index, genesis, from), Path(index, genesis, to)))
    ensures var p, q := Path(index, genesis, from), Path(index, genesis, to);
            var k := CommonLen(p, q);
            && Indexed(index, p[..k]) && Indexed(index, q[k..]) && ReplayPath(index, p[..k]).Some?
            && ReorgResult(rules, index, genesis, db, from, to)
               == ConnectMany(rules, index, genesis, ReplayPath(index, p[..k]).value, q[k..])
  {
    var p, q := Path(index, genesis, from), Path(index, genesis, to);
    var k := CommonLen(p, q);
    CommonGenesis(index, genesis, from, to);
    PathShape(index, genesis, to);
    DisconnectsToFork(index, p, supply, k);
    ChainPrefix(index, p, supply, k);
  }

  /** No block of from's branch above its fork with to reuses an id. */
  ghost predicate FreshFork(index: Index, genesis: Hash, from: Hash, to: Hash)
    requires TreeOk(index, genesis) && from in index && to in index
  {
    PathShape(index, genesis, from);
    FreshAbove(index, Path(index, genesis, from), CommonLen(Path(index, genesis, from), Path(index, genesis, to)))
  }

  /** No block that a switch to tip disconnects reuses an id. */
  ghost predicate FreshSwitch(index: Index, genesis: Hash, best: Hash, tip: Hash)
  {
    && TreeOk(index, genesis) && best in index && tip in index
    && (index[tip].prev == Some(best) || FreshFork(index, genesis, best, Intermediate(index, genesis, tip, index[best].trust)))
  }

  /** The branch of to connects to the replay up to its fork with from. */
  ghost predicate BranchConnects(rules: Rules, index: Index, genesis: Hash, from: Hash, to: Hash)
    requires TreeOk(index, genesis) && from in index && to in index
  {
    PathShape(index, genesis, from);
    PathShape(index, genesis, to);
    var p, q := Path(index, genesis, from), Path(index, genesis, to);
    var k := CommonLen(p, q);
    ReplayPath(index, p[..k]).Some? && ConnectMany(rules, index, genesis, ReplayPath(index, p[..k]).value, q[k..]).Some?
  }

  // ------------------------------------------------------------ the postponed blocks, one at a time

  /** The first j of up are connected from start and tied to links. */
  ghost predicate PostponedSoFar(rules: Rules, index: Index, genesis: Hash, start: TxDb, links: map<Hash, Hash>, up: seq<Hash>,
                                 j: nat, db: TxDb, links': map<Hash, Hash>)
    requires TreeOk(index, genesis) && Indexed(index, up)
  {
    j <= |up| && ConnectMany(rules, index, genesis, start, up[..j]) == Some(db) && links' == Tie(index, links, up[..j])
  }

  lemma StartPostponed(rules: Rules, index: Index, genesis: Hash, start: TxDb, links: map<Hash, Hash>, up: seq<Hash>)
    requires TreeOk(index, genesis) && Indexed(index, up)
    ensures PostponedSoFar(rules, index, genesis, start, links, up, 0, start, links)
  {
    assert up[..0] == [];
  }

  lemma PostponedNext(rules: Rules, index: Index, genesis: Hash, start: TxDb, links: map<Hash, Hash>, up: seq<Hash>,
                      j: nat, db: TxDb, links': map<Hash, Hash>)
    requires TreeOk(index, genesis) && Indexed(index, up) && j < |up| && index[up[j]].prev.Some?
    requires PostponedSoFar(rules, index, genesis, start, links, up, j, db, links')
    ensures if Connects(rules, index, genesis, up[j], db)
            then match ConnectTxs(db, up[j], index[up[j]].block.vtx)
                 case Some(d) => PostponedSoFar(rules, index, genesis, start, links, up, j + 1, d, links'[index[up[j]].prev.value := up[j]])
                 case None => false
            else ConnectRun(rules, index, genesis, start, up) == (j, db)
  {
    hide TreeOk, Connects, ConnectTxs;
    assert up[..j + 1][..j] == up[..j];
    ConnectManyNext(rules, index, genesis, start, up, j);
    if Connects(rules, index, genesis, up[j], db) {
      ConnectsAccepts(rules, index, genesis, up[j], db);
    } else {
      RunStops(rules, index, genesis, start, up, j, db);
    }
  }

  lemma PostponedAll(rules: Rules, index: Index, genesis: Hash, start: TxDb, links: map<Hash, Hash>, up: seq<Hash>,
                     db: TxDb, links': map<Hash, Hash>)
    requires TreeOk(index, genesis) && Indexed(index, up)
    requires PostponedSoFar(rules, index, genesis, start, links, up, |up|, db, links')
    ensures ConnectRun(rules, index, genesis, start, up) == (|up|, db) && up[..|up|] == up
  {
    assert up[..|up|] == up;
    RunIsMany(rules, index, genesis, start, up);
  }

  /** The postponed blocks are the end of tip's path. */
  lemma PostponedFacts(index: Index, genesis: Hash, base: Hash, tip: Hash, secondary: seq<Hash>)
    requires TreeOk(index, genesis) && base in index && tip in index
    requires Path(index, genesis, tip) == Path(index, genesis, base) + Reversed(secondary)
    ensures |Reversed(secondary)| == |secondary| && Indexed(index, Reversed(secondary))
  {
    hide Path, TreeOk;
    PathShape(index, genesis, tip);
    var q, p := Path(index, genesis, tip), Path(index, genesis, base);
    forall k | 0 <= k < |secondary| ensures Reversed(secondary)[k] in index { assert Reversed(secondary)[k] == q[|p| + k]; }
  }

  /** A block higher than h is not on the path to h. */
  lemma HigherIsOff(index: Index, genesis: Hash, h: Hash)
    requires TreeOk(index, genesis) && h in index
    ensures forall x :: x in index && index[x].height > index[h].height ==> x !in Path(index, genesis, h)
  {
    PathShape(index, genesis, h);
  }

  /** A block that extends the best block leaves the links at its path, if and only if they were at the best block. */
  lemma ExtendedLinks(index: Index, genesis: Hash, a: Hash, best: Hash, tip: Hash)
    requires TreeOk(index, genesis) && best in index && tip in index && a in index && Ancestor(index, genesis, a, best)
    requires index[tip].prev == Some(best)
    ensures Links(Path(index, genesis, a))[best := tip] == Links(Path(index, genesis, tip)) <==> a == best
  {
    ExtendPath(index, genesis, best, tip);
    if a != best {
      PathDistinct(index, genesis, a);
      PathDistinct(index, genesis, tip);
      LinksAt(Path(index, genesis, a));
      LinksAt(Path(index, genesis, tip));
      PathShape(index, genesis, a);
      PathShape(index, genesis, tip);
      AncestorAt(index, genesis, a, best);
      PathShape(index, genesis, best);
      hide TreeOk, Path, Links;
      var p, q := Path(index, genesis, a), Path(index, genesis, tip);
      assert q[index[a].height] == a && p[|p| - 1] == a;
    }
  }

  lemma PostponedAt(index: Index, genesis: Hash, base: Hash, tip: Hash, secondary: seq<Hash>, j: nat)
    requires TreeOk(index, genesis) && base in index && tip in index && j < |secondary|
    requires Path(index, genesis, tip) == Path(index, genesis, base) + Reversed(secondary)
    ensures var up, h := Reversed(secondary), secondary[|secondary| - 1 - j];
            && |up| == |secondary| && h == up[j] && h in index
            && index[h].prev == Some(if j == 0 then base else up[j - 1]) && index[h].prev.value in index
  {
    hide Path, TreeOk, Reversed;
    var q, n := Path(index, genesis, tip), |Path(index, genesis, base)|;
    PathShape(index, genesis, tip);
    PathShape(index, genesis, base);
    ReversedAt(secondary, j);
    if j > 0 { ReversedAt(secondary, j - 1); }
    PathParent(index, genesis, tip, n + j);
  }

  ghost predicate SameOn(path: seq<Hash>, supply: map<Hash, int>, supply': map<Hash, int>) {
    forall h :: h in path && h in supply && h in supply' ==> supply'[h] == supply[h]
  }

  /** A supply that is kept on the path to b is kept on the path to an ancestor of b. */
  lemma SupplyKept(index: Index, genesis: Hash, a: Hash, b: Hash, supply: map<Hash, int>, supply': map<Hash, int>, db: TxDb)
    requires TreeOk(index, genesis) && a in index && b in index && Ancestor(index, genesis, a, b)
    requires At(index, Path(index, genesis, a), supply, db) && supply.Keys == supply'.Keys == index.Keys
    requires SameOn(Path(index, genesis, b), supply, supply')
    ensures At(index, Path(index, genesis, a), supply', db)
  {
    PathShape(index, genesis, b);
    AncestorAt(index, genesis, a, b);
    PathPrefix(index, genesis, b, index[a].height);
    hide TreeOk, Path, At;
    AtFrame(index, index, Path(index, genesis, a), supply, supply', db);
  }

  /** A new block leaves the flags and the paths of the others alone. */
  lemma ChildKeepsPaths(index: Index, genesis: Hash, block: Block, trust: nat, links: map<Hash, Hash>, best: Hash, dbBest: Hash)
    requires TreeOk(index, genesis) && block.prevHash in index && block.hash !in index && best in index && dbBest in index
    ensures var index' := index[block.hash := ChildOf(index, block, trust)];
            && TreeOk(index', genesis)
            && Path(index', genesis, best) == Path(index, genesis, best) && Path(index', genesis, dbBest) == Path(index, genesis, dbBest)
            && (FlagsOk(index, genesis, links, best) ==> FlagsOk(index', genesis, links, best))
            && (Ancestor(index, genesis, dbBest, best) ==> Ancestor(index', genesis, dbBest, best))
            && (forall i :: 0 <= i < |Path(index, genesis, dbBest)| ==>
                  && Path(index, genesis, dbBest)[i] in index && Path(index, genesis, dbBest)[i] in index'
                  && index'[Path(index, genesis, dbBest)[i]] == index[Path(index, genesis, dbBest)[i]])
  {
    var index' := index[block.hash := ChildOf(index, block, trust)];
    ChildKeepsTree(index, genesis, block, trust);
    PathExtend(index, genesis, block.hash, index'[block.hash], best);
    PathExtend(index, genesis, block.hash, index'[block.hash], dbBest);
    PathShape(index, genesis, dbBest);
  }
}

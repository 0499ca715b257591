/** The block index as a tree of pprev links, the path from the genesis block to a block, the
    pnext links of a path, and the search for the fork point of two branches. */
module BlockTree {
  import opened Basics
  import opened Ledger
  import opened Sequences

  datatype Block = Block(hash: Hash, prevHash: Hash, time: int, bits: nat, vtx: seq<Tx>)

  /** The fields of a block index entry that never change; pnext and the money supply, which do,
      are kept by the chain state. */
  datatype BlockIndex = BlockIndex(prev: Option<Hash>, height: nat, trust: nat, block: Block)

  type Index = map<Hash, BlockIndex>

  /** Only the genesis block has no parent; heights count the links and trust never decreases. */
  ghost predicate TreeOk(index: Index, genesis: Hash) {
    && genesis in index && index[genesis].prev.None? && index[genesis].height == 0
    && (forall h :: h in index ==> index[h].block.hash == h)
    && (forall h :: h in index && h != genesis ==>
          && index[h].prev.Some? && index[h].prev.value in index
          && index[h].height == index[index[h].prev.value].height + 1
          && index[h].trust >= index[index[h].prev.value].trust)
  }

  function Parent(index: Index, genesis: Hash, h: Hash): Hash
    requires TreeOk(index, genesis) && h in index && h != genesis
  {
    index[h].prev.value
  }

  /** The blocks from genesis to h. */
  function Path(index: Index, genesis: Hash, h: Hash): seq<Hash>
    requires TreeOk(index, genesis) && h in index
    decreases index[h].height
  {
    if h == genesis then [h] else Path(index, genesis, Parent(index, genesis, h)) + [h]
  }

  predicate Ancestor(index: Index, genesis: Hash, a: Hash, h: Hash)
    requires TreeOk(index, genesis) && h in index
  {
    a in Path(index, genesis, h)
  }

  /** The block at height i of a path is an indexed block of height i. */
  lemma {:induction false} PathShape(index: Index, genesis: Hash, h: Hash)
    requires TreeOk(index, genesis) && h in index
    ensures var p := Path(index, genesis, h);
            && |p| == index[h].height + 1 && p[0] == genesis && p[|p| - 1] == h
            && (forall i :: 0 <= i < |p| ==> p[i] in index && index[p[i]].height == i)
    decreases index[h].height
  {
    if h != genesis { PathShape(index, genesis, Parent(index, genesis, h)); }
  }

  /** Every prefix of a path is the path of its last block. */
  lemma {:induction false} PathPrefix(index: Index, genesis: Hash, h: Hash, i: nat)
    requires TreeOk(index, genesis) && h in index && i <= index[h].height
    ensures |Path(index, genesis, h)| == index[h].height + 1
    ensures var p := Path(index, genesis, h); p[i] in index && Path(index, genesis, p[i]) == p[..i + 1]
    decreases index[h].height
  {
    PathShape(index, genesis, h);
    var p := Path(index, genesis, h);
    if i == index[h].height {
      assert p[..i + 1] == p;
    } else {
      var q := Parent(index, genesis, h);
      PathPrefix(index, genesis, q, i);
      assert p[..i + 1] == Path(index, genesis, q)[..i + 1];
    }
  }

  /** Consecutive blocks of a path are linked by pprev. */
  lemma PathParent(index: Index, genesis: Hash, h: Hash, i: nat)
    requires TreeOk(index, genesis) && h in index && 0 < i <= index[h].height
    ensures var p := Path(index, genesis, h);
            && |p| == index[h].height + 1 && p[i] in index && p[i] != genesis
            && index[p[i]].prev == Some(p[i - 1]) && p[i - 1] in index && index[p[i - 1]].height == i - 1
  {
    PathShape(index, genesis, h);
    PathPrefix(index, genesis, h, i);
    var p := Path(index, genesis, h);
    var q := Parent(index, genesis, p[i]);
    PathShape(index, genesis, q);
    assert Path(index, genesis, p[i])[i - 1] == q;
  }

  /** a is an ancestor of h exactly when it sits on h's path at its own height. */
  lemma AncestorAt(index: Index, genesis: Hash, a: Hash, h: Hash)
    requires TreeOk(index, genesis) && h in index
    ensures Ancestor(index, genesis, a, h) <==>
            && a in index && index[a].height < |Path(index, genesis, h)|
            && Path(index, genesis, h)[index[a].height] == a
  {
    PathShape(index, genesis, h);
  }

  lemma AncestorTransitive(index: Index, genesis: Hash, a: Hash, b: Hash, c: Hash)
    requires TreeOk(index, genesis) && c in index && b in index
    requires Ancestor(index, genesis, a, b) && Ancestor(index, genesis, b, c)
    ensures Ancestor(index, genesis, a, c)
  {
    PathShape(index, genesis, c);
    AncestorAt(index, genesis, b, c);
    PathPrefix(index, genesis, c, index[b].height);
  }

  /** Two ancestors of one block lie on one line. */
  lemma AncestorsLinear(index: Index, genesis: Hash, a: Hash, b: Hash, c: Hash)
    requires TreeOk(index, genesis) && c in index && a in index && b in index
    requires Ancestor(index, genesis, a, c) && Ancestor(index, genesis, b, c)
    requires index[a].height <= index[b].height
    ensures Ancestor(index, genesis, a, b)
  {
    PathShape(index, genesis, c);
    AncestorAt(index, genesis, a, c);
    AncestorAt(index, genesis, b, c);
    PathPrefix(index, genesis, c, index[b].height);
    var p := Path(index, genesis, c);
    assert p[..index[b].height + 1][index[a].height] == a;
  }

  /** An ancestor never has more trust. */
  lemma {:induction false} AncestorTrust(index: Index, genesis: Hash, a: Hash, h: Hash)
    requires TreeOk(index, genesis) && h in index && Ancestor(index, genesis, a, h)
    ensures a in index && index[a].trust <= index[h].trust
    decreases index[h].height
  {
    if a != h { AncestorTrust(index, genesis, a, Parent(index, genesis, h)); }
  }

  /** Adding a block leaves every older path alone. */
  lemma {:induction false} PathExtend(index: Index, genesis: Hash, n: Hash, b: BlockIndex, h: Hash)
    requires TreeOk(index, genesis) && TreeOk(index[n := b], genesis) && n !in index && h in index
    ensures Path(index[n := b], genesis, h) == Path(index, genesis, h)
    decreases index[h].height
  {
    if h != genesis { PathExtend(index, genesis, n, b, Parent(index, genesis, h)); }
  }

  // ---------------------------------------------------------------- pnext links

  /** The pnext links that make up a path. */
  function Links(path: seq<Hash>): map<Hash, Hash> {
    if |path| < 2 then map[] else Links(path[..|path| - 1])[path[|path| - 2] := path[|path| - 1]]
  }

  lemma LinksSnoc(p: seq<Hash>, h: Hash)
    requires p != []
    ensures Links(p + [h]) == Links(p)[p[|p| - 1] := h]
  {
    assert (p + [h])[..|p|] == p;
  }

  lemma LinksOfOne(path: seq<Hash>)
    requires |path| < 2
    ensures Links(path) == map[]
  {
  }

  /** A block has a link exactly when it is on the path and not its end, and the link is its successor. */
  lemma {:induction false} LinksAt(path: seq<Hash>)
    requires Distinct(path)
    ensures forall i :: 0 <= i < |path| - 1 ==> path[i] in Links(path) && Links(path)[path[i]] == path[i + 1]
    ensures forall h :: h in Links(path) <==> h in path && h != path[|path| - 1]
  {
    hide Links;
    if |path| >= 2 {
      var init, h := path[..|path| - 1], path[|path| - 1];
      LinksAt(init);
      LinksSnoc(init, h);
      assert path == init + [h];
    } else {
      LinksOfOne(path);
    }
  }

  lemma PathDistinct(index: Index, genesis: Hash, h: Hash)
    requires TreeOk(index, genesis) && h in index
    ensures Distinct(Path(index, genesis, h))
  {
    PathShape(index, genesis, h);
  }

  /** Cutting the link into the last block of a path gives the links of the shorter path. */
  lemma LinksCut(path: seq<Hash>)
    requires Distinct(path) && |path| >= 2
    ensures Links(path) - {path[|path| - 2]} == Links(path[..|path| - 1])
  {
    LinksAt(path[..|path| - 1]);
  }

  /** The links of a block's path tell it apart from its ancestors. */
  lemma LinksTellTip(index: Index, genesis: Hash, a: Hash, h: Hash)
    requires TreeOk(index, genesis) && h in index && a in index && Ancestor(index, genesis, a, h)
    ensures Links(Path(index, genesis, a)) == Links(Path(index, genesis, h)) <==> a == h
  {
    PathDistinct(index, genesis, a);
    PathDistinct(index, genesis, h);
    LinksAt(Path(index, genesis, a));
    LinksAt(Path(index, genesis, h));
    PathShape(index, genesis, a);
    PathShape(index, genesis, h);
  }

  // ---------------------------------------------------------------- fork search

  /** f is the highest common ancestor of a and b. */
  ghost predicate IsFork(index: Index, genesis: Hash, a: Hash, b: Hash, f: Hash)
    requires TreeOk(index, genesis) && a in index && b in index
  {
    && f in index && Ancestor(index, genesis, f, a) && Ancestor(index, genesis, f, b)
    && forall c :: c in index && Ancestor(index, genesis, c, a) && Ancestor(index, genesis, c, b) ==>
         index[c].height <= index[f].height
  }

  /** Stepping to the parent keeps every ancestor that is lower. */
  lemma StepKeeps(index: Index, genesis: Hash, c: Hash, h: Hash)
    requires TreeOk(index, genesis) && h in index && h != genesis && c in index
    ensures Ancestor(index, genesis, c, h) && c != h <==> Ancestor(index, genesis, c, Parent(index, genesis, h))
  {
    PathShape(index, genesis, h);
    PathShape(index, genesis, Parent(index, genesis, h));
  }

  /** x and y are on the ways down from a and b, and no common ancestor has been passed. */
  ghost predicate Meets(index: Index, genesis: Hash, a: Hash, b: Hash, x: Hash, y: Hash)
    requires TreeOk(index, genesis) && a in index && b in index
  {
    && x in index && y in index && Ancestor(index, genesis, x, a) && Ancestor(index, genesis, y, b)
    && forall c :: c in index && Ancestor(index, genesis, c, a) && Ancestor(index, genesis, c, b) ==>
         Ancestor(index, genesis, c, x) && Ancestor(index, genesis, c, y)
  }

  lemma MeetsStart(index: Index, genesis: Hash, a: Hash, b: Hash)
    requires TreeOk(index, genesis) && a in index && b in index
    ensures Meets(index, genesis, a, b, a, b)
  {
    PathShape(index, genesis, a);
    PathShape(index, genesis, b);
  }

  lemma MeetsTurned(index: Index, genesis: Hash, a: Hash, b: Hash, x: Hash, y: Hash)
    requires TreeOk(index, genesis) && a in index && b in index && Meets(index, genesis, a, b, x, y)
    ensures Meets(index, genesis, b, a, y, x)
  {
  }

  /** A block that is higher than the other, or as high and different, can be left for its parent. */
  lemma MeetsNext(index: Index, genesis: Hash, a: Hash, b: Hash, x: Hash, y: Hash)
    requires TreeOk(index, genesis) && a in index && b in index && Meets(index, genesis, a, b, x, y)
    requires x in index && y in index && index[y].height >= index[x].height && x != y
    ensures index[y].prev.Some? && index[y].prev.value in index && index[index[y].prev.value].height < index[y].height
    ensures Meets(index, genesis, a, b, x, index[y].prev.value)
  {
    PathShape(index, genesis, x);
    PathShape(index, genesis, y);
    assert y != genesis;
    var next := Parent(index, genesis, y);
    PathShape(index, genesis, next);
    StepKeeps(index, genesis, next, y);
    hide TreeOk, Path;
    AncestorTransitive(index, genesis, next, y, b);
    forall c | c in index && Ancestor(index, genesis, c, a) && Ancestor(index, genesis, c, b)
      ensures Ancestor(index, genesis, c, next)
    {
      StepKeeps(index, genesis, c, y);
    }
  }

  lemma MeetsAt(index: Index, genesis: Hash, a: Hash, b: Hash, f: Hash)
    requires TreeOk(index, genesis) && a in index && b in index && Meets(index, genesis, a, b, f, f)
    ensures IsFork(index, genesis, a, b, f)
  {
    PathShape(index, genesis, f);
    hide Path, TreeOk;
  }

  /** Walk the two branches back to where they meet. The second cursor is the one moved down to the
      height of the first; None would be a null pprev, which cannot happen. */
  method FindFork(index: Index, genesis: Hash, a: Hash, b: Hash) returns (fork: Option<Hash>)
    requires TreeOk(index, genesis) && a in index && b in index
    ensures fork.Some? && IsFork(index, genesis, a, b, fork.value)
  {
    hide Path, TreeOk, Meets, IsFork, Ancestor;
    var pfork, plonger := a, b;
    MeetsStart(index, genesis, a, b);
    while pfork != plonger
      invariant pfork in index && plonger in index && Meets(index, genesis, a, b, pfork, plonger)
      decreases index[pfork].height + index[plonger].height
    {
      ghost var above := index[plonger].height;
      while index[plonger].height > index[pfork].height
        invariant plonger in index && Meets(index, genesis, a, b, pfork, plonger)
        invariant index[plonger].height <= above
        decreases index[plonger].height
      {
        MeetsNext(index, genesis, a, b, pfork, plonger);
        var next := index[plonger].prev;
        if next.None? { return None; }
        plonger := next.value;
      }
      if pfork == plonger { break; }
      MeetsTurned(index, genesis, a, b, pfork, plonger);
      MeetsNext(index, genesis, b, a, plonger, pfork);
      var next := index[pfork].prev;
      if next.None? { return None; }
      MeetsTurned(index, genesis, b, a, plonger, next.value);
      pfork := next.value;
    }
    MeetsAt(index, genesis, a, b, pfork);
    return Some(pfork);
  }

  /** The common path of two branches ends at their fork. */
  lemma ForkPrefix(index: Index, genesis: Hash, h: Hash, f: Hash)
    requires TreeOk(index, genesis) && h in index && f in index && Ancestor(index, genesis, f, h)
    ensures var p := Path(index, genesis, h); var k := index[f].height + 1;
            k <= |p| && p[..k] == Path(index, genesis, f)
  {
    PathShape(index, genesis, h);
    AncestorAt(index, genesis, f, h);
    PathPrefix(index, genesis, h, index[f].height);
  }

  /** Above the fork the two branches share no block. */
  lemma ForkDisjoint(index: Index, genesis: Hash, a: Hash, b: Hash, f: Hash)
    requires TreeOk(index, genesis) && a in index && b in index && IsFork(index, genesis, a, b, f)
    ensures var p, q, k := Path(index, genesis, a), Path(index, genesis, b), index[f].height + 1;
            k <= |q| && forall i :: k <= i < |q| ==> q[i] !in p
  {
    PathShape(index, genesis, a);
    PathShape(index, genesis, b);
    AncestorAt(index, genesis, f, b);
    var p, q, k := Path(index, genesis, a), Path(index, genesis, b), index[f].height + 1;
    forall i | k <= i < |q| ensures q[i] !in p {
      assert Ancestor(index, genesis, q[i], b);
    }
  }

  lemma NoneAbove(p: seq<Hash>)
    ensures Reversed(p[|p|..]) == []
  {
  }

  lemma ReversedTail(p: seq<Hash>, k: nat)
    requires k < |p|
    ensures Reversed(p[k..]) == Reversed(p[k + 1..]) + [p[k]]
  {
    hide Reversed;
    assert p[k..] == [p[k]] + p[k + 1..];
    ReversedCons(p[k], p[k + 1..]);
  }

  /** The blocks from h down to, but not including, its ancestor f, as pushed by Reorganize. */
  method BranchDown(index: Index, genesis: Hash, h: Hash, f: Hash) returns (list: seq<Hash>)
    requires TreeOk(index, genesis) && h in index && f in index && Ancestor(index, genesis, f, h)
    ensures var p := Path(index, genesis, h); index[f].height < |p| && list == Reversed(p[index[f].height + 1..])
  {
    hide Path, TreeOk, Reversed, Ancestor;
    list := [];
    var cursor := h;
    ghost var p := Path(index, genesis, h);
    PathShape(index, genesis, h);
    AncestorAt(index, genesis, f, h);
    NoneAbove(p);
    while cursor != f
      invariant cursor in index && index[f].height <= index[cursor].height < |p| && p[index[cursor].height] == cursor
      invariant list == Reversed(p[index[cursor].height + 1..])
      decreases index[cursor].height
    {
      ghost var k := index[cursor].height;
      PathParent(index, genesis, h, k);
      ReversedTail(p, k);
      list := list + [cursor];
      cursor := index[cursor].prev.value;
    }
  }

  /** Length of the longest common prefix. */
  function CommonLen(p: seq<Hash>, q: seq<Hash>): (k: nat)
    ensures k <= |p| && k <= |q| && p[..k] == q[..k]
    ensures k < |p| && k < |q| ==> p[k] != q[k]
  {
    if p == [] || q == [] || p[0] != q[0] then 0 else
    var k := CommonLen(p[1..], q[1..]);
    assert p[..k + 1] == [p[0]] + p[1..][..k];
    assert q[..k + 1] == [q[0]] + q[1..][..k];
    k + 1
  }

  lemma {:induction false} CommonLenIs(p: seq<Hash>, q: seq<Hash>, n: nat)
    requires n <= |p| && n <= |q| && p[..n] == q[..n] && (n == |p| || n == |q| || p[n] != q[n])
    ensures CommonLen(p, q) == n
  {
    if n > 0 {
      assert p[0] == p[..n][0] == q[..n][0] == q[0];
      assert p[1..][..n - 1] == p[..n][1..] == q[..n][1..] == q[1..][..n - 1];
      CommonLenIs(p[1..], q[1..], n - 1);
    }
  }

  /** The fork found by walking back is where the two paths stop agreeing. */
  lemma ForkIsCommonLen(index: Index, genesis: Hash, a: Hash, b: Hash, f: Hash)
    requires TreeOk(index, genesis) && a in index && b in index && IsFork(index, genesis, a, b, f)
    ensures CommonLen(Path(index, genesis, a), Path(index, genesis, b)) == index[f].height + 1
  {
    ForkPrefix(index, genesis, a, f);
    ForkPrefix(index, genesis, b, f);
    ForkDisjoint(index, genesis, a, b, f);
    hide Path, TreeOk, IsFork;
    CommonLenIs(Path(index, genesis, a), Path(index, genesis, b), index[f].height + 1);
  }
}

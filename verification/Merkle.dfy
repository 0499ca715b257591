/** Merkle trees over the transaction ids of a block: the flat tree built level by level, the branch of a
    leaf, and the check of a branch against the root. The hash of two nodes is an arbitrary function. */
module Merkle {
  import opened Basics

  type Combine = (Hash, Hash) -> Hash

  /** The next level up; the last node of an odd level is paired with itself. */
  function Level(H: Combine, level: seq<Hash>): seq<Hash> {
    seq((|level| + 1) / 2, i requires 0 <= i < (|level| + 1) / 2 => H(level[2 * i], level[Min(2 * i + 1, |level| - 1)]))
  }

  /** The root, one level at a time; 0 for no transactions. */
  function Root(H: Combine, level: seq<Hash>): Hash
    decreases |level|
  {
    if level == [] then 0 else if |level| == 1 then level[0] else Root(H, Level(H, level))
  }

  /** All levels below the root and the root itself, one after the other. */
  function Flat(H: Combine, level: seq<Hash>): seq<Hash>
    decreases |level|
  {
    if |level| <= 1 then level else level + Flat(H, Level(H, level))
  }

  /** The position of the sibling of node i in a level of n nodes. */
  function Sibling(i: nat, n: nat): nat
    requires i < n
  {
    Min(if i % 2 == 0 then i + 1 else i - 1, n - 1)
  }

  /** The siblings met on the way from leaf i to the root. */
  function Branch(H: Combine, level: seq<Hash>, i: nat): seq<Hash>
    requires i < |level|
    decreases |level|
  {
    if |level| == 1 then [] else [level[Sibling(i, |level|)]] + Branch(H, Level(H, level), i / 2)
  }

  /** Hash a leaf up along a branch; the low bit of the index says which side the leaf is on. */
  function Fold(H: Combine, hash: Hash, branch: seq<Hash>, i: int): Hash
    decreases |branch|
  {
    if branch == [] then hash
    else Fold(H, if i % 2 == 1 then H(branch[0], hash) else H(hash, branch[0]), branch[1..], i / 2)
  }

  // ------------------------------------------------------------ theorems

  /** A node's parent hashes it with its sibling, on the side its low bit says. */
  lemma LevelAt(H: Combine, level: seq<Hash>, i: nat)
    requires i < |level|
    ensures var up, sibling := Level(H, level), level[Sibling(i, |level|)];
            && |up| == (|level| + 1) / 2 && i / 2 < |up| && (|level| > 1 ==> |up| < |level|)
            && up[i / 2] == if i % 2 == 1 then H(sibling, level[i]) else H(level[i], sibling)
  {
    var k := i / 2;
    assert i == 2 * k || i == 2 * k + 1;
  }

  /** The branch of every leaf leads to the root, odd levels included. */
  lemma {:induction false} BranchLeadsToRoot(H: Combine, level: seq<Hash>, i: nat)
    requires i < |level|
    ensures Fold(H, level[i], Branch(H, level, i), i) == Root(H, level)
    decreases |level|
  {
    hide Level, Sibling;
    if |level| > 1 {
      var up, branch := Level(H, level), Branch(H, level, i);
      LevelAt(H, level, i);
      BranchLeadsToRoot(H, up, i / 2);
      assert branch[1..] == Branch(H, up, i / 2);
    }
  }

  ghost predicate Injective(H: Combine) {
    forall a, b, c, d :: H(a, b) == H(c, d) ==> a == c && b == d
  }

  /** With a collision-free hash, a branch of the right length that leads to the root from position i can only
      be the branch of leaf i, and the value hashed up can only be that leaf. */
  lemma {:induction false} BranchBinds(H: Combine, level: seq<Hash>, i: nat, hash: Hash, branch: seq<Hash>)
    requires Injective(H) && i < |level| && |branch| == |Branch(H, level, i)|
    requires Fold(H, hash, branch, i) == Root(H, level)
    ensures hash == level[i] && branch == Branch(H, level, i)
    decreases |level|
  {
    hide Injective, Level, Fold, Root;
    UpOne(H, level, i, hash, branch);
    if |level| > 1 {
      var up, own := Level(H, level), Branch(H, level, i);
      var parent := if i % 2 == 1 then H(branch[0], hash) else H(hash, branch[0]);
      assert own[1..] == Branch(H, up, i / 2);
      BranchBinds(H, up, i / 2, parent, branch[1..]);
      if i % 2 == 1 {
        SameParts(H, branch[0], hash, own[0], level[i]);
      } else {
        SameParts(H, hash, branch[0], level[i], own[0]);
      }
      assert branch == [branch[0]] + branch[1..];
      assert own == [own[0]] + own[1..];
    }
  }

  lemma SameParts(H: Combine, a: Hash, b: Hash, c: Hash, d: Hash)
    requires Injective(H) && H(a, b) == H(c, d)
    ensures a == c && b == d
  {
  }

  /** One level of hashing up, for an arbitrary value and branch and for the real ones. */
  lemma UpOne(H: Combine, level: seq<Hash>, i: nat, hash: Hash, branch: seq<Hash>)
    requires i < |level| && |branch| == |Branch(H, level, i)|
    ensures |level| == 1 ==> branch == [] && Fold(H, hash, branch, i) == hash && Root(H, level) == level[i]
    ensures |level| > 1 ==>
              var up, own := Level(H, level), Branch(H, level, i);
              && branch != [] && i / 2 < |up| && |up| < |level| && Root(H, level) == Root(H, up)
              && Fold(H, hash, branch, i) == Fold(H, if i % 2 == 1 then H(branch[0], hash) else H(hash, branch[0]), branch[1..], i / 2)
              && up[i / 2] == (if i % 2 == 1 then H(own[0], level[i]) else H(level[i], own[0]))
  {
    hide Level, Sibling;
    LevelAt(H, level, i);
  }

  // ------------------------------------------------------------ the code

  /** Append the parents of the nodes from j on, pair by pair. */
  method PushLevel(H: Combine, tree0: seq<Hash>, j: nat, size: nat) returns (tree: seq<Hash>)
    requires |tree0| == j + size && size > 0
    ensures tree == tree0 + Level(H, tree0[j..])
  {
    tree := tree0;
    ghost var up := Level(H, tree0[j..]);
    var i := 0;
    while i < size
      invariant i % 2 == 0 && i / 2 <= |up| && (i <= size + 1)
      invariant tree == tree0 + up[..i / 2]
    {
      var i2 := Min(i + 1, size - 1);
      assert up[i / 2] == H(tree0[j..][i], tree0[j..][i2]);
      assert up[..(i + 2) / 2] == up[..i / 2] + [up[i / 2]];
      tree := tree + [H(tree[j + i], tree[j + i2])];
      i := i + 2;
    }
    assert up[..i / 2] == up;
  }

  method BuildMerkleTree(H: Combine, leaves: seq<Hash>) returns (root: Hash, tree: seq<Hash>)
    ensures root == Root(H, leaves) && tree == Flat(H, leaves)
  {
    hide Level;
    tree := leaves;
    var j, size := 0, |leaves|;
    ghost var level := leaves;
    while size > 1
      invariant j <= |tree| && level == tree[j..] && |level| == size
      invariant Root(H, level) == Root(H, leaves) && (size == 0 ==> tree == [])
      invariant tree[..j] + Flat(H, level) == Flat(H, leaves)
      decreases size
    {
      ghost var before, up := tree, Level(H, level);
      LevelSize(H, level);
      tree := PushLevel(H, tree, j, size);
      assert tree[j + size..] == up;
      assert tree[..j + size] + Flat(H, up) == before[..j] + (level + Flat(H, up));
      level := up;
      j, size := j + size, (size + 1) / 2;
    }
    assert tree[..j] + level == tree;
    root := if tree == [] then 0 else tree[|tree| - 1];
  }

  lemma LevelSize(H: Combine, level: seq<Hash>)
    ensures |Level(H, level)| == (|level| + 1) / 2
  {
  }

  /** Read the branch of leaf i off the flat tree. */
  method GetMerkleBranch(H: Combine, leaves: seq<Hash>, tree: seq<Hash>, index: nat) returns (branch: seq<Hash>)
    requires tree == Flat(H, leaves) && index < |leaves|
    ensures branch == Branch(H, leaves, index)
  {
    hide Level;
    branch := [];
    var i: nat, j, size := index, 0, |leaves|;
    ghost var level := leaves;
    while size > 1
      invariant |level| == size && i < size && j <= |tree| && tree[j..] == Flat(H, level)
      invariant branch + Branch(H, level, i) == Branch(H, leaves, index)
      decreases size
    {
      var at := Sibling(i, size);
      LevelAt(H, level, i);
      assert tree[j + at] == tree[j..][at] == level[at];
      branch := branch + [tree[j + at]];
      assert Flat(H, level)[size..] == Flat(H, Level(H, level));
      assert tree[j + size..] == tree[j..][size..];
      level := Level(H, level);
      i, j, size := i / 2, j + size, (size + 1) / 2;
    }
  }

  method CheckMerkleBranch(H: Combine, leaf: Hash, branch: seq<Hash>, index: int) returns (hash: Hash)
    ensures hash == if index == -1 then 0 else Fold(H, leaf, branch, index)
  {
    if index == -1 { return 0; }
    hash := leaf;
    var i := index;
    for n := 0 to |branch|
      invariant Fold(H, hash, branch[n..], i) == Fold(H, leaf, branch, index)
    {
      var otherside := branch[n];
      assert branch[n..][1..] == branch[n + 1..];
      hash := if i % 2 == 1 then H(otherside, hash) else H(hash, otherside);
      i := i / 2;
    }
  }
}

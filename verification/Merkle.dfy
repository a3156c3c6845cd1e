/**
 Merkle trees over the transaction hashes of a block, the branch that proves
 one of them, and its check.
 */
module Merkle {
  import opened Basics

  type Digest = nat

  // The hash of two digests side by side
  type PairHash = (Digest, Digest) -> Digest

  // The partner of an index in its pair
  function Partner(i: nat): nat {
    if i % 2 == 0 then i + 1 else i - 1
  }

  // The level above; an odd level pairs its last digest with itself.
  function Above(h: PairHash, level: seq<Digest>): (r: seq<Digest>)
    ensures |r| == (|level| + 1) / 2
  {
    seq((|level| + 1) / 2, i requires 0 <= i < (|level| + 1) / 2 => h(level[2 * i], level[Min(2 * i + 1, |level| - 1)]))
  }

  function Root(h: PairHash, level: seq<Digest>): Digest
    decreases |level|
  {
    if level == [] then 0 else if |level| == 1 then level[0] else Root(h, Above(h, level))
  }

  function Depth(n: nat): nat {
    if n <= 1 then 0 else 1 + Depth((n + 1) / 2)
  }

  // All levels, one after the other
  function Levels(h: PairHash, level: seq<Digest>): seq<Digest>
    decreases |level|
  {
    if |level| <= 1 then level else level + Levels(h, Above(h, level))
  }

  function Branch(h: PairHash, level: seq<Digest>, i: nat): seq<Digest>
    decreases |level|
  {
    if |level| <= 1 then [] else [level[Min(Partner(i), |level| - 1)]] + Branch(h, Above(h, level), i / 2)
  }

  // The digest a branch leads to
  function Climb(h: PairHash, x: Digest, branch: seq<Digest>, i: int): Digest
    decreases |branch|
  {
    if branch == [] then x else Climb(h, Joined(h, x, branch[0], i), branch[1..], i / 2)
  }

  function Joined(h: PairHash, x: Digest, other: Digest, i: int): Digest {
    if i % 2 == 1 then h(other, x) else h(x, other)
  }

  // --- what the root is

  lemma AboveHalves(h: PairHash, a: seq<Digest>, b: seq<Digest>)
    requires |a| % 2 == 0
    ensures Above(h, a + b) == Above(h, a) + Above(h, b)
  {
    hide Above;
    var s, left, right := a + b, Above(h, a), Above(h, b);
    forall i | 0 <= i < |left| + |right| ensures Above(h, s)[i] == (left + right)[i] {
      AboveAt(h, s, i);
      if i < |left| {
        AboveAt(h, a, i);
      } else {
        AboveAt(h, b, i - |left|);
      }
    }
  }

  function Pow2(k: nat): nat {
    if k == 0 then 1 else 2 * Pow2(k - 1)
  }

  /** The root over two full halves is the hash of their roots, the left one first. */
  lemma {:induction false} RootOfHalves(h: PairHash, a: seq<Digest>, b: seq<Digest>, k: nat)
    requires |a| == |b| == Pow2(k)
    ensures Root(h, a + b) == h(Root(h, a), Root(h, b))
    decreases k
  {
    if k == 0 {
      assert a + b == [a[0], b[0]];
      assert Above(h, a + b) == [h(a[0], b[0])];
    } else {
      AboveHalves(h, a, b);
      RootOfHalves(h, Above(h, a), Above(h, b), k - 1);
    }
  }

  /** On a level of odd length the last digest counts twice. */
  lemma OddLevelRepeats(h: PairHash, level: seq<Digest>)
    requires |level| % 2 == 1 && |level| > 1
    ensures Root(h, level) == Root(h, level + [level[|level| - 1]])
  {
    var n := |level|;
    var more := level + [level[n - 1]];
    assert Above(h, level) == Above(h, more);
  }

  // --- the block's methods

  lemma {:induction false} RootIsLast(h: PairHash, level: seq<Digest>)
    ensures var t := Levels(h, level); Root(h, level) == if t == [] then 0 else t[|t| - 1]
    decreases |level|
  {
    if |level| > 1 {
      RootIsLast(h, Above(h, level));
    }
  }

  class CBlock {
    const hash: PairHash
    const txHashes: seq<Digest>
    var vMerkleTree: seq<Digest>

    // The tree is kept once it has been built.
    ghost predicate Valid()
      reads this
    {
      vMerkleTree == [] || vMerkleTree == Levels(hash, txHashes)
    }

    constructor (hash: PairHash, txHashes: seq<Digest>)
      ensures Valid() && this.hash == hash && this.txHashes == txHashes
    {
      this.hash, this.txHashes, vMerkleTree := hash, txHashes, [];
    }

    // Appends the level above the last one.
    method AppendLevel(j: nat, size: nat)
      requires j + size == |vMerkleTree|
      modifies this
      ensures vMerkleTree == old(vMerkleTree) + Above(hash, old(vMerkleTree)[j..])
    {
      hide Above;
      ghost var below := vMerkleTree;
      ghost var level := below[j..];
      var i: nat := 0;
      while i < size
        invariant i % 2 == 0 && i <= size + 1
        invariant vMerkleTree == below + Above(hash, level)[..i / 2]
      {
        AboveAt(hash, level, i / 2);
        var i2 := Min(i + 1, size - 1);
        assert vMerkleTree[j + i] == level[i] && vMerkleTree[j + i2] == level[i2];
        vMerkleTree := vMerkleTree + [hash(vMerkleTree[j + i], vMerkleTree[j + i2])];
        i := i + 2;
      }
    }

    method BuildMerkleTree() returns (root: Digest)
      modifies this
      ensures Valid() && vMerkleTree == Levels(hash, txHashes)
      ensures root == Root(hash, txHashes)
    {
      hide Above, Root, Levels;
      vMerkleTree := txHashes;
      var j, size: nat := 0, |txHashes|;
      ghost var level := txHashes;
      while size > 1
        invariant size == |level|
        invariant j + size == |vMerkleTree| && vMerkleTree[j..] == level
        invariant vMerkleTree[..j] + Levels(hash, level) == Levels(hash, txHashes)
        decreases size
      {
        NextLevel(hash, vMerkleTree, j, level);
        AppendLevel(j, size);
        j, size := j + size, (size + 1) / 2;
        level := Above(hash, level);
      }
      LastLevel(hash, vMerkleTree, j, level);
      RootIsLast(hash, txHashes);
      root := if vMerkleTree == [] then 0 else vMerkleTree[|vMerkleTree| - 1];
    }

    method GetMerkleBranch(index: nat) returns (branch: seq<Digest>)
      requires Valid()
      modifies this
      ensures Valid()
      ensures branch == Branch(hash, txHashes, index)
    {
      hide Above, Root, Levels, Branch;
      if vMerkleTree == [] {
        var root := BuildMerkleTree();
      }
      branch := [];
      var i, j, size: nat := index, 0, |txHashes|;
      ghost var level := txHashes;
      while size > 1
        invariant size == |level| && vMerkleTree == Levels(hash, txHashes)
        invariant j <= |vMerkleTree| && vMerkleTree[j..] == Levels(hash, level)
        invariant branch + Branch(hash, level, i) == Branch(hash, txHashes, index)
        decreases size
      {
        BranchStep(hash, vMerkleTree, j, level, i);
        branch := branch + [vMerkleTree[j + Min(Partner(i), size - 1)]];
        i, j, size := i / 2, j + size, (size + 1) / 2;
        level := Above(hash, level);
      }
      NoBranch(hash, level, i);
    }
  }

  lemma AboveAt(h: PairHash, level: seq<Digest>, k: nat)
    requires 2 * k < |level|
    ensures Above(h, level)[..k + 1] == Above(h, level)[..k] + [h(level[2 * k], level[Min(2 * k + 1, |level| - 1)])]
  {}

  lemma LastLevel(h: PairHash, tree: seq<Digest>, j: nat, level: seq<Digest>)
    requires j <= |tree| && tree[j..] == level && |level| <= 1
    ensures tree[..j] + Levels(h, level) == tree
  {}

  lemma BranchStep(h: PairHash, tree: seq<Digest>, j: nat, level: seq<Digest>, i: nat)
    requires j <= |tree| && tree[j..] == Levels(h, level) && |level| > 1
    ensures j + |level| <= |tree| && tree[j + |level|..] == Levels(h, Above(h, level))
    ensures Branch(h, level, i) == [tree[j + Min(Partner(i), |level| - 1)]] + Branch(h, Above(h, level), i / 2)
  {
    hide Above;
    var at := Min(Partner(i), |level| - 1);
    assert tree[j..][|level|..] == tree[j + |level|..];
    assert tree[j..][at] == tree[j + at];
  }

  lemma NoBranch(h: PairHash, level: seq<Digest>, i: nat)
    requires |level| <= 1
    ensures Branch(h, level, i) == []
  {}

  lemma NextLevel(h: PairHash, tree: seq<Digest>, j: nat, level: seq<Digest>)
    requires j <= |tree| && tree[j..] == level && |level| > 1
    ensures var next := tree + Above(h, level);
      next[|tree|..] == Above(h, level) &&
      next[..|tree|] + Levels(h, Above(h, level)) == tree[..j] + Levels(h, level)
  {
    hide Above;
    Cut(tree, j, Above(h, level));
    Associate(tree[..j], level, Levels(h, Above(h, level)));
  }

  lemma Cut(tree: seq<Digest>, j: nat, above: seq<Digest>)
    requires j <= |tree|
    ensures tree == tree[..j] + tree[j..]
    ensures (tree + above)[..|tree|] == tree && (tree + above)[|tree|..] == above
  {}

  lemma Associate(a: seq<Digest>, b: seq<Digest>, c: seq<Digest>)
    ensures a + b + c == a + (b + c)
  {}

  method CheckMerkleBranch(hash: PairHash, x: Digest, branch: seq<Digest>, index: int) returns (r: Digest)
    ensures r == if index == -1 then 0 else Climb(hash, x, branch, index)
  {
    if index == -1 {
      return 0;
    }
    r := x;
    var i := index;
    for k := 0 to |branch|
      invariant Climb(hash, r, branch[k..], i) == Climb(hash, x, branch, index)
    {
      assert branch[k..][1..] == branch[k + 1..];
      if i % 2 == 1 {
        r := hash(branch[k], r);
      } else {
        r := hash(r, branch[k]);
      }
      i := i / 2;
    }
  }

  // --- what the branch proves

  // A digest and its partner give the digest above them.
  lemma JoinedIsAbove(h: PairHash, level: seq<Digest>, i: nat)
    requires 1 < |level| && i < |level|
    ensures i / 2 < |Above(h, level)|
    ensures Joined(h, level[i], level[Min(Partner(i), |level| - 1)], i) == Above(h, level)[i / 2]
  {}

  /** The branch of every transaction leads to the root. */
  lemma {:induction false} BranchLeadsToRoot(h: PairHash, level: seq<Digest>, i: nat)
    requires i < |level|
    ensures Climb(h, level[i], Branch(h, level, i), i) == Root(h, level)
    ensures |Branch(h, level, i)| == Depth(|level|)
    decreases |level|
  {
    hide Above;
    if |level| > 1 {
      JoinedIsAbove(h, level, i);
      BranchLeadsToRoot(h, Above(h, level), i / 2);
      assert Branch(h, level, i)[1..] == Branch(h, Above(h, level), i / 2);
    }
  }

  ghost predicate Injective(h: PairHash) {
    forall a, b, c, d :: h(a, b) == h(c, d) ==> a == c && b == d
  }

  /** Without collisions only the transaction at that index checks, and only
      with its own branch. */
  lemma {:induction false} OnlyTheLeafChecks(h: PairHash, level: seq<Digest>, x: Digest, branch: seq<Digest>, i: nat)
    requires Injective(h) && i < |level| && |branch| == Depth(|level|)
    requires Climb(h, x, branch, i) == Root(h, level)
    ensures x == level[i] && branch == Branch(h, level, i)
    decreases |level|
  {
    hide Above;
    if |level| > 1 {
      JoinedIsAbove(h, level, i);
      OnlyTheLeafChecks(h, Above(h, level), Joined(h, x, branch[0], i), branch[1..], i / 2);
      assert branch == [branch[0]] + branch[1..];
    }
  }

  lemma PartsAreBelow(h: PairHash, level: seq<Digest>, x: Digest, other: Digest, i: int, k: nat)
    requires Injective(h) && k < |Above(h, level)| && Above(h, level)[k] == Joined(h, x, other, i)
    ensures x in level
  {}

  /** Whatever the index, a digest that checks is the hash of some transaction. */
  lemma {:induction false} WhatChecksIsALeaf(h: PairHash, level: seq<Digest>, x: Digest, branch: seq<Digest>, i: int)
    requires Injective(h) && level != [] && |branch| == Depth(|level|)
    requires Climb(h, x, branch, i) == Root(h, level)
    ensures x in level
    decreases |level|
  {
    hide Above, Injective, Joined;
    if |level| > 1 {
      var above := Above(h, level);
      var y := Joined(h, x, branch[0], i);
      WhatChecksIsALeaf(h, above, y, branch[1..], i / 2);
      var k :| 0 <= k < |above| && above[k] == y;
      PartsAreBelow(h, level, x, branch[0], i, k);
    }
  }
}

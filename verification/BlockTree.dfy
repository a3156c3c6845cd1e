/**
 The block index as a tree: parents, heights, chain trust, the path from genesis
 to a block, and the walks that the chain code makes along parent links.
 */
module BlockTree {
  import opened Basics
  import opened Transactions
  import opened MarkedOutputs
  import opened Ledger

  function BlockTrust(b: Block): nat {
    if b.target <= 0 then 0
    else if b.IsProofOfStake() then TWO_256 / (b.target + 1)
    else 1
  }

  /** A stake block weighs the number of hashes expected for its target, a work block
      weighs one, and no block without a target weighs anything. */
  lemma TrustIsExpectedWork(b: Block)
    ensures b.target <= 0 ==> BlockTrust(b) == 0
    ensures b.target > 0 && !b.IsProofOfStake() ==> BlockTrust(b) == 1
    ensures b.target > 0 && b.IsProofOfStake() ==>
      var t := BlockTrust(b); t * (b.target + 1) <= TWO_256 < (t + 1) * (b.target + 1)
  {
    if b.target > 0 && b.IsProofOfStake() {
      Divided(TWO_256, b.target + 1);
    }
  }

  /** Of two blocks of one kind the one with the lower target weighs no less. */
  lemma HarderWeighsMore(b: Block, c: Block)
    requires b.IsProofOfStake() == c.IsProofOfStake() && 0 < b.target <= c.target
    ensures BlockTrust(c) <= BlockTrust(b)
  {
    DividedByMore(TWO_256, b.target + 1, c.target + 1);
  }

  datatype Node = Node(block: Block, at: FilePos, prev: Option<Hash>, height: nat, powHeight: nat, trust: nat)

  type Nodes = map<Hash, Node>

  predicate LinksToParent(nodes: Nodes, weigh: Block -> nat, h: Hash)
    requires h in nodes
  {
    var n := nodes[h];
    n.prev.Some? ==>
      && n.prev.value in nodes
      && n.prev == Some(n.block.prev)
      && n.height == nodes[n.prev.value].height + 1
      && n.powHeight == NextPowHeight(nodes[n.prev.value].powHeight, n.block)
      && n.trust == nodes[n.prev.value].trust + weigh(n.block)
  }

  ghost predicate WellFormed(nodes: Nodes, genesis: Hash, weigh: Block -> nat) {
    && genesis in nodes
    && (forall h | h in nodes :: nodes[h].prev.None? <==> h == genesis)
    && (forall h {:trigger LinksToParent(nodes, weigh, h)} | h in nodes :: LinksToParent(nodes, weigh, h))
    && nodes[genesis].height == 0 && nodes[genesis].powHeight == 0
  }

  // A block tree with the place of its root; weigh says what a block adds to the
  // trust of its chain, and nothing below depends on how.
  datatype Tree = Tree(nodes: Nodes, genesis: Hash, weigh: Block -> nat) {
    ghost predicate Valid() {
      WellFormed(nodes, genesis, weigh)
    }

    predicate Has(h: Hash) {
      h in nodes
    }

    function Height(h: Hash): nat
      requires Has(h)
    {
      nodes[h].height
    }

    function Parent(h: Hash): (p: Hash)
      requires Valid() && Has(h) && nodes[h].prev.Some?
      ensures nodes[h].prev == Some(p) && Has(p)
      ensures nodes[h].height == nodes[p].height + 1
      ensures nodes[h].powHeight == NextPowHeight(nodes[p].powHeight, nodes[h].block)
      ensures nodes[h].trust >= nodes[p].trust
    {
      assert LinksToParent(nodes, weigh, h);
      nodes[h].prev.value
    }

    // The blocks from genesis to h
    ghost function Path(h: Hash): seq<Hash>
      requires Valid() && Has(h)
      decreases nodes[h].height
    {
      if nodes[h].prev.None? then [h] else Path(Parent(h)) + [h]
    }

    // a is h or one of its ancestors.
    ghost predicate Ancestor(a: Hash, h: Hash)
      requires Valid() && Has(h)
    {
      a in Path(h)
    }

    // The blocks after genesis up to h, as they lie on disk
    ghost function Chain(h: Hash): seq<Stored>
      requires Valid() && Has(h)
      decreases nodes[h].height
    {
      if nodes[h].prev.None? then []
      else Chain(Parent(h)) + [Stored(nodes[h].block, nodes[h].at)]
    }
  }

  // --- paths

  lemma {:induction false} PathShape(t: Tree, h: Hash)
    requires t.Valid() && t.Has(h)
    ensures |t.Path(h)| == t.Height(h) + 1
    ensures t.Path(h)[t.Height(h)] == h
    ensures forall i | 0 <= i <= t.Height(h) :: t.Has(t.Path(h)[i]) && t.Height(t.Path(h)[i]) == i
    ensures |t.Chain(h)| == t.Height(h)
    decreases t.nodes[h].height
  {
    if t.nodes[h].prev.Some? {
      PathShape(t, t.Parent(h));
    }
  }

  lemma {:induction false} PathPrefix(t: Tree, h: Hash, i: nat)
    requires t.Valid() && t.Has(h) && i <= t.Height(h)
    ensures |t.Path(h)| == t.Height(h) + 1 && t.Has(t.Path(h)[i])
    ensures t.Path(t.Path(h)[i]) == t.Path(h)[..i + 1]
    ensures |t.Chain(h)| == t.Height(h)
    ensures t.Chain(t.Path(h)[i]) == t.Chain(h)[..i]
    decreases t.nodes[h].height
  {
    PathShape(t, h);
    if i == t.Height(h) {
      assert t.Path(h)[..i + 1] == t.Path(h);
    } else {
      var p := t.Parent(h);
      PathShape(t, p);
      PathPrefix(t, p, i);
      assert t.Path(h)[..i + 1] == t.Path(p)[..i + 1];
      assert t.Chain(h)[..i] == t.Chain(p)[..i];
    }
  }

  // Ancestry is decided by looking at one height.
  lemma AncestorAt(t: Tree, a: Hash, h: Hash)
    requires t.Valid() && t.Has(h)
    ensures |t.Path(h)| == t.Height(h) + 1
    ensures t.Ancestor(a, h) <==> t.Has(a) && t.Height(a) <= t.Height(h) && t.Path(h)[t.Height(a)] == a
  {
    PathShape(t, h);
  }

  lemma AncestorTrans(t: Tree, a: Hash, b: Hash, c: Hash)
    requires t.Valid() && t.Has(b) && t.Has(c)
    requires t.Ancestor(a, b) && t.Ancestor(b, c)
    ensures t.Ancestor(a, c)
  {
    AncestorAt(t, b, c);
    PathPrefix(t, c, t.Height(b));
  }

  lemma ParentIsAncestor(t: Tree, h: Hash)
    requires t.Valid() && t.Has(h) && t.nodes[h].prev.Some?
    ensures t.Ancestor(t.Parent(h), h)
  {
    PathShape(t, t.Parent(h));
  }

  lemma {:induction false} GenesisIsAncestor(t: Tree, h: Hash)
    requires t.Valid() && t.Has(h)
    ensures t.Ancestor(t.genesis, h)
    decreases t.nodes[h].height
  {
    if t.nodes[h].prev.Some? {
      GenesisIsAncestor(t, t.Parent(h));
    }
  }

  // Chain trust never decreases from a block to its descendants.
  lemma {:induction false} TrustGrows(t: Tree, a: Hash, h: Hash)
    requires t.Valid() && t.Has(h) && t.Ancestor(a, h)
    ensures t.Has(a) && t.nodes[a].trust <= t.nodes[h].trust
    decreases t.nodes[h].height
  {
    if a != h {
      TrustGrows(t, a, t.Parent(h));
    }
  }

  // --- growing the tree

  function NewNode(t: Tree, b: Block, at: FilePos): Node
    requires t.Has(b.prev)
  {
    var p := t.nodes[b.prev];
    Node(b, at, Some(b.prev), p.height + 1, NextPowHeight(p.powHeight, b), p.trust + t.weigh(b))
  }

  function Grow(t: Tree, b: Block, at: FilePos): Tree
    requires t.Has(b.prev)
  {
    t.(nodes := t.nodes[b.id := NewNode(t, b, at)])
  }

  lemma GrowValid(t: Tree, b: Block, at: FilePos)
    requires t.Valid() && t.Has(b.prev) && !t.Has(b.id)
    ensures Grow(t, b, at).Valid()
  {
    var t' := Grow(t, b, at);
    forall h | h in t'.nodes ensures LinksToParent(t'.nodes, t'.weigh, h) {
      assert h != b.id ==> LinksToParent(t.nodes, t.weigh, h);
    }
  }

  lemma {:induction false} GrowKeeps(t: Tree, b: Block, at: FilePos, h: Hash)
    requires t.Valid() && t.Has(b.prev) && !t.Has(b.id) && t.Has(h)
    ensures Grow(t, b, at).Valid()
    ensures Grow(t, b, at).Path(h) == t.Path(h)
    ensures Grow(t, b, at).Chain(h) == t.Chain(h)
    decreases t.nodes[h].height
  {
    GrowValid(t, b, at);
    if t.nodes[h].prev.Some? {
      GrowKeeps(t, b, at, t.Parent(h));
    }
  }

  // Every block of t is in t' unchanged.
  ghost predicate Extends(t: Tree, t': Tree) {
    forall h | t.Has(h) :: t'.Has(h) && t'.nodes[h] == t.nodes[h]
  }

  lemma {:induction false} ExtendsKeeps(t: Tree, t': Tree, h: Hash)
    requires t.Valid() && t'.Valid() && Extends(t, t') && t.Has(h)
    ensures t'.Path(h) == t.Path(h)
    decreases t.nodes[h].height
  {
    if t.nodes[h].prev.Some? {
      ExtendsKeeps(t, t', t.Parent(h));
    }
  }

  // --- the fork of two branches

  // f is the last block that best and h have in common.
  ghost predicate IsFork(t: Tree, f: Hash, best: Hash, h: Hash)
    requires t.Valid() && t.Has(best) && t.Has(h)
  {
    && t.Has(f) && t.Ancestor(f, best) && t.Ancestor(f, h)
    && forall c | t.Ancestor(c, best) && t.Ancestor(c, h) :: t.Ancestor(c, f)
  }

  lemma ForkUnique(t: Tree, f: Hash, f': Hash, best: Hash, h: Hash)
    requires t.Valid() && t.Has(best) && t.Has(h)
    requires IsFork(t, f, best, h) && IsFork(t, f', best, h)
    ensures f == f'
  {
    AncestorAt(t, f, f');
    AncestorAt(t, f', f);
  }

  // The first block on the way back from h that best descends from
  ghost function ForkOf(t: Tree, best: Hash, h: Hash): (f: Hash)
    requires t.Valid() && t.Has(best) && t.Has(h)
    ensures t.Has(f)
    decreases t.nodes[h].height
  {
    if t.Ancestor(h, best) || t.nodes[h].prev.None? then h else ForkOf(t, best, t.Parent(h))
  }

  lemma {:induction false} ForkOfIsFork(t: Tree, best: Hash, h: Hash)
    requires t.Valid() && t.Has(best) && t.Has(h)
    ensures IsFork(t, ForkOf(t, best, h), best, h)
    decreases t.nodes[h].height
  {
    PathShape(t, h);
    if t.nodes[h].prev.None? {
      GenesisIsAncestor(t, best);
    } else if !t.Ancestor(h, best) {
      var p := t.Parent(h);
      ForkOfIsFork(t, best, p);
      ParentIsAncestor(t, h);
      AncestorTrans(t, ForkOf(t, best, p), p, h);
    }
  }

  // Every common ancestor of best and h lies at or below both walkers.
  ghost predicate NotPassed(t: Tree, best: Hash, h: Hash, x: Hash)
    requires t.Valid() && t.Has(best) && t.Has(h) && t.Has(x)
  {
    forall c | t.Ancestor(c, best) && t.Ancestor(c, h) :: t.Ancestor(c, x)
  }

  // One step back does not pass a common ancestor, unless it leaves one.
  lemma StepBack(t: Tree, best: Hash, h: Hash, x: Hash)
    requires t.Valid() && t.Has(best) && t.Has(h) && t.Has(x) && t.nodes[x].prev.Some?
    requires NotPassed(t, best, h, x)
    requires !(t.Ancestor(x, best) && t.Ancestor(x, h))
    ensures t.Has(t.Parent(x)) && NotPassed(t, best, h, t.Parent(x))
  {
    var p := t.Parent(x);
    forall c | t.Ancestor(c, best) && t.Ancestor(c, h) ensures t.Ancestor(c, p) {
      assert c in t.Path(p) + [x];
    }
  }

  // Two ancestors of one block at one height are the same block.
  lemma SameHeight(t: Tree, a: Hash, b: Hash, h: Hash)
    requires t.Valid() && t.Has(h) && t.Ancestor(a, h) && t.Ancestor(b, h)
    requires t.Has(a) && t.Has(b) && t.Height(a) == t.Height(b)
    ensures a == b
  {
    AncestorAt(t, a, h);
    AncestorAt(t, b, h);
  }

  /** The two-pointer walk of Reorganize reaches the lowest common ancestor and
      never runs off the tree. */
  method FindFork(t: Tree, best: Hash, h: Hash) returns (fork: Hash)
    requires t.Valid() && t.Has(best) && t.Has(h)
    ensures IsFork(t, fork, best, h)
  {
    fork := best;
    var longer := h;
    PathShape(t, best);
    PathShape(t, h);
    while fork != longer
      invariant t.Has(fork) && t.Ancestor(fork, best) && NotPassed(t, best, h, fork)
      invariant t.Has(longer) && t.Ancestor(longer, h) && NotPassed(t, best, h, longer)
      decreases t.Height(fork), t.Height(longer)
    {
      while t.Height(longer) > t.Height(fork)
        invariant t.Has(longer) && t.Ancestor(longer, h) && NotPassed(t, best, h, longer)
      {
        if t.Ancestor(longer, best) && t.Ancestor(longer, h) {
          AncestorAt(t, longer, fork);
          assert false;
        }
        StepBack(t, best, h, longer);
        ParentIsAncestor(t, longer);
        AncestorTrans(t, t.Parent(longer), longer, h);
        longer := t.Parent(longer);
      }
      if fork == longer {
        break;
      }
      if t.Ancestor(fork, best) && t.Ancestor(fork, h) {
        AncestorAt(t, fork, longer);
        SameHeight(t, fork, longer, h);
        assert false;
      }
      GenesisIsAncestor(t, best);
      GenesisIsAncestor(t, h);
      StepBack(t, best, h, fork);
      ParentIsAncestor(t, fork);
      AncestorTrans(t, t.Parent(fork), fork, best);
      fork := t.Parent(fork);
    }
  }

  // --- postponed blocks

  // The block nearest to genesis on the way to h that makes its branch the best
  ghost function Intermediate(t: Tree, best: Hash, h: Hash): (mid: Hash)
    requires t.Valid() && t.Has(best) && t.Has(h)
    ensures t.Has(mid)
    decreases t.nodes[h].height
  {
    if t.nodes[h].prev.Some? && t.nodes[t.Parent(h)].trust > t.nodes[best].trust
    then Intermediate(t, best, t.Parent(h)) else h
  }

  /** Postponing blocks does not move the fork, because trust never decreases
      along the branch. */
  lemma {:induction false} SameFork(t: Tree, best: Hash, h: Hash, f: Hash)
    requires t.Valid() && t.Has(best) && t.Has(h)
    ensures t.Has(Intermediate(t, best, h)) && t.Ancestor(Intermediate(t, best, h), h)
    ensures IsFork(t, f, best, h) <==> IsFork(t, f, best, Intermediate(t, best, h))
    decreases t.nodes[h].height
  {
    PathShape(t, h);
    if t.nodes[h].prev.Some? && t.nodes[t.Parent(h)].trust > t.nodes[best].trust {
      var p := t.Parent(h);
      SameFork(t, best, p, f);
      ParentIsAncestor(t, h);
      AncestorTrans(t, Intermediate(t, best, h), p, h);
      if t.Ancestor(h, best) {
        TrustGrows(t, h, best);
      }
      forall c | t.Ancestor(c, best) ensures t.Ancestor(c, h) <==> t.Ancestor(c, p) {
        assert t.Path(h) == t.Path(p) + [h];
      }
    }
  }

  lemma SameForkOf(t: Tree, best: Hash, h: Hash)
    requires t.Valid() && t.Has(best) && t.Has(h)
    ensures ForkOf(t, best, Intermediate(t, best, h)) == ForkOf(t, best, h)
    ensures t.Ancestor(ForkOf(t, best, h), Intermediate(t, best, h)) && t.Ancestor(Intermediate(t, best, h), h)
  {
    var f, mid := ForkOf(t, best, h), Intermediate(t, best, h);
    ForkOfIsFork(t, best, h);
    ForkOfIsFork(t, best, mid);
    SameFork(t, best, h, f);
    ForkUnique(t, f, ForkOf(t, best, mid), best, mid);
  }

  // --- branches

  // The blocks from h down to, but not including, its ancestor f
  ghost function Down(t: Tree, f: Hash, h: Hash): seq<Hash>
    requires t.Valid() && t.Has(h)
    decreases t.nodes[h].height
  {
    if h == f || t.nodes[h].prev.None? then [] else [h] + Down(t, f, t.Parent(h))
  }

  // The same blocks, oldest first
  ghost function Up(t: Tree, f: Hash, h: Hash): seq<Hash>
    requires t.Valid() && t.Has(h)
    decreases t.nodes[h].height
  {
    if h == f || t.nodes[h].prev.None? then [] else Up(t, f, t.Parent(h)) + [h]
  }

  lemma NotOwnAncestor(t: Tree, h: Hash)
    requires t.Valid() && t.Has(h) && t.nodes[h].prev.Some?
    ensures !t.Ancestor(h, t.Parent(h))
  {
    AncestorAt(t, h, t.Parent(h));
  }

  // Walking down from h to f meets every ancestor of h that f does not have.
  lemma {:induction false} DownIs(t: Tree, f: Hash, h: Hash, x: Hash)
    requires t.Valid() && t.Has(f) && t.Has(h) && t.Ancestor(f, h)
    ensures x in Down(t, f, h) <==> t.Ancestor(x, h) && !t.Ancestor(x, f)
    decreases t.nodes[h].height
  {
    if h != f {
      var p := t.Parent(h);
      DownIs(t, f, p, x);
      if x == h && t.Ancestor(h, f) {
        AncestorTrans(t, h, f, p);
        NotOwnAncestor(t, h);
      }
    }
  }

  // The k-th block of the upward list, its parent and the list up to it
  lemma {:induction false} UpAt(t: Tree, f: Hash, h: Hash, k: nat)
    requires t.Valid() && t.Has(f) && t.Has(h) && t.Ancestor(f, h) && k < |Up(t, f, h)|
    ensures var x := Up(t, f, h)[k];
      && t.Has(x) && t.nodes[x].prev == Some(if k == 0 then f else Up(t, f, h)[k - 1])
      && t.Ancestor(x, h) && x in Down(t, f, h)
    decreases t.nodes[h].height
  {
    var p := t.Parent(h);
    if k == |Up(t, f, h)| - 1 {
      UpEmpty(t, f, p);
      PathShape(t, h);
    } else {
      UpAt(t, f, p, k);
    }
  }

  lemma UpEmpty(t: Tree, f: Hash, h: Hash)
    requires t.Valid() && t.Has(f) && t.Has(h) && t.Ancestor(f, h)
    ensures if Up(t, f, h) == [] then h == f else Up(t, f, h)[|Up(t, f, h)| - 1] == h
  {}

  lemma {:induction false} UpReversesDown(t: Tree, f: Hash, h: Hash)
    requires t.Valid() && t.Has(h)
    ensures Up(t, f, h) == Reversed(Down(t, f, h))
    decreases t.nodes[h].height
  {
    if h != f && t.nodes[h].prev.Some? {
      UpReversesDown(t, f, t.Parent(h));
    }
  }

  // The loops that list a branch by walking back from its end
  method ListDown(t: Tree, f: Hash, h: Hash) returns (down: seq<Hash>)
    requires t.Valid() && t.Has(f) && t.Has(h) && t.Ancestor(f, h)
    ensures down == Down(t, f, h)
  {
    down := [];
    var x := h;
    while x != f
      invariant t.Has(x) && t.Ancestor(f, x)
      invariant down + Down(t, f, x) == Down(t, f, h)
      decreases t.nodes[x].height
    {
      assert down + [x] + Down(t, f, t.Parent(x)) == down + Down(t, f, x);
      down := down + [x];
      x := t.Parent(x);
    }
    assert down + [] == down;
  }

  function Reversed(s: seq<Hash>): (r: seq<Hash>)
    ensures |r| == |s| && forall i | 0 <= i < |s| :: r[i] == s[|s| - 1 - i]
  {
    seq(|s|, i requires 0 <= i < |s| => s[|s| - 1 - i])
  }

  // Above the fork the branch to h shares nothing with the branch to best.
  lemma AboveFork(t: Tree, f: Hash, best: Hash, h: Hash, x: Hash)
    requires t.Valid() && t.Has(best) && t.Has(h) && IsFork(t, f, best, h)
    requires x in Down(t, f, h)
    ensures !t.Ancestor(x, best)
  {
    DownIs(t, f, h, x);
  }

  // --- pnext

  // The links that lead from genesis to h
  ghost function Links(t: Tree, h: Hash): map<Hash, Hash>
    requires t.Valid() && t.Has(h)
    decreases t.nodes[h].height
  {
    if t.nodes[h].prev.None? then map[] else Links(t, t.Parent(h))[t.Parent(h) := h]
  }

  lemma {:induction false} LinksKeys(t: Tree, h: Hash, x: Hash)
    requires t.Valid() && t.Has(h)
    ensures x in Links(t, h) <==> t.Ancestor(x, h) && x != h
    decreases t.nodes[h].height
  {
    if t.nodes[h].prev.Some? {
      LinksKeys(t, t.Parent(h), x);
      NotOwnAncestor(t, h);
      PathShape(t, t.Parent(h));
    }
  }

  lemma LinksBack(t: Tree, h: Hash)
    requires t.Valid() && t.Has(h) && t.nodes[h].prev.Some?
    ensures Links(t, h) - {t.Parent(h)} == Links(t, t.Parent(h))
  {
    LinksKeys(t, t.Parent(h), t.Parent(h));
  }

  lemma {:induction false} GrowKeepsLinks(t: Tree, b: Block, at: FilePos, h: Hash)
    requires t.Valid() && t.Has(b.prev) && !t.Has(b.id) && t.Has(h)
    ensures Grow(t, b, at).Valid() && Links(Grow(t, b, at), h) == Links(t, h)
    decreases t.nodes[h].height
  {
    GrowValid(t, b, at);
    if t.nodes[h].prev.Some? {
      GrowKeepsLinks(t, b, at, t.Parent(h));
    }
  }

  // Whatever else is known of the links, only blocks on the way to h have one.
  ghost predicate LinksBelow(t: Tree, next: map<Hash, Hash>, h: Hash)
    requires t.Valid() && t.Has(h)
  {
    forall x | x in next :: t.Ancestor(x, h) && x != h
  }

  lemma LinksAreBelow(t: Tree, h: Hash)
    requires t.Valid() && t.Has(h)
    ensures LinksBelow(t, Links(t, h), h)
  {
    forall x | x in Links(t, h) ensures t.Ancestor(x, h) && x != h {
      LinksKeys(t, h, x);
    }
  }

  lemma UnlinkBelow(t: Tree, next: map<Hash, Hash>, h: Hash)
    requires t.Valid() && t.Has(h) && t.nodes[h].prev.Some? && LinksBelow(t, next, h)
    ensures LinksBelow(t, next - {t.Parent(h)}, t.Parent(h))
  {
    assert t.Path(h) == t.Path(t.Parent(h)) + [h];
  }

  lemma LinkBelow(t: Tree, next: map<Hash, Hash>, h: Hash)
    requires t.Valid() && t.Has(h) && t.nodes[h].prev.Some? && LinksBelow(t, next, t.Parent(h))
    ensures LinksBelow(t, next[t.Parent(h) := h], h)
  {
    var p := t.Parent(h);
    NotOwnAncestor(t, h);
    ParentIsAncestor(t, h);
    forall x | x in next ensures t.Ancestor(x, h) && x != h {
      AncestorTrans(t, x, p, h);
    }
  }

  lemma BelowDescendant(t: Tree, next: map<Hash, Hash>, a: Hash, h: Hash)
    requires t.Valid() && t.Has(a) && t.Has(h) && t.Ancestor(a, h) && LinksBelow(t, next, a)
    ensures LinksBelow(t, next, h)
  {
    forall x | x in next ensures t.Ancestor(x, h) && x != h {
      AncestorTrans(t, x, a, h);
      AncestorAt(t, x, a);
      AncestorAt(t, a, h);
    }
  }

  lemma GrowKeepsBelow(t: Tree, b: Block, at: FilePos, next: map<Hash, Hash>, h: Hash)
    requires t.Valid() && t.Has(b.prev) && !t.Has(b.id) && t.Has(h) && LinksBelow(t, next, h)
    ensures Grow(t, b, at).Valid() && LinksBelow(Grow(t, b, at), next, h)
  {
    GrowKeeps(t, b, at, h);
  }
}

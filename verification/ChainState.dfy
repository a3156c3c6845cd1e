/**
 The node's view of the chain: block tree, pnext links, per-block counters, best
 block and transaction database, and the steps that move the best block.

 CBlockIndex pointers are block hashes here, and the fields that change after a
 block is indexed (pnext and the counters) are maps beside the tree.
 */
module ChainState {
  import opened Basics
  import opened Transactions
  import opened MarkedOutputs
  import opened Ledger
  import opened Supply
  import opened PrunedIndex
  import opened BlockTree
  import opened BlockConnection

  ghost predicate AllStored(disk: Disk, t: Tree) {
    t.Valid() && forall h {:trigger t.nodes[h].block} | t.Has(h) && t.nodes[h].prev.Some? :: OnDisk(disk, t.nodes[h].block, t.nodes[h].at)
  }

  // The block is on disk and repeats no transaction id of its ancestors.
  ghost predicate SoundAt(disk: Disk, t: Tree, h: Hash)
    requires t.Valid() && t.Has(h)
  {
    t.nodes[h].prev.Some? ==>
      && OnDisk(disk, t.nodes[h].block, t.nodes[h].at)
      && IdsOf(t.Chain(t.Parent(h))) !! t.nodes[h].block.Ids()
  }

  ghost predicate Sound(disk: Disk, t: Tree) {
    t.Valid() && forall h {:trigger SoundAt(disk, t, h)} | t.Has(h) :: SoundAt(disk, t, h)
  }

  // The counters of h and of its ancestors are those of a replay from genesis.
  ghost predicate Counted(disk: Disk, t: Tree, stats: map<Hash, Stats>, h: Hash)
    requires t.Valid() && t.Has(h) && stats.Keys == t.nodes.Keys
    decreases t.nodes[h].height
  {
    && Replay(disk, t.Chain(h)).Some?
    && Replay(disk, t.Chain(h)).value.tip == Tip(t.nodes[h].powHeight, stats[h])
    && (t.nodes[h].prev.Some? ==> Counted(disk, t, stats, t.Parent(h)))
  }

  // ... and the index is the replay to h.
  ghost predicate Connected(disk: Disk, t: Tree, stats: map<Hash, Stats>, index: Index, h: Hash)
    requires t.Valid()
  {
    && t.Has(h)
    && stats.Keys == t.nodes.Keys
    && Counted(disk, t, stats, h)
    && Replay(disk, t.Chain(h)).value.index == index
  }

  // ... or the replay to h without some fully spent entries.
  ghost predicate Held(disk: Disk, t: Tree, stats: map<Hash, Stats>, index: Index, h: Hash)
    requires t.Valid()
  {
    && t.Has(h)
    && stats.Keys == t.nodes.Keys
    && Counted(disk, t, stats, h)
    && Pruned(index, Replay(disk, t.Chain(h)).value.index)
  }

  lemma ConnectedIsHeld(disk: Disk, t: Tree, stats: map<Hash, Stats>, index: Index, h: Hash)
    requires t.Valid() && Connected(disk, t, stats, index, h)
    ensures Held(disk, t, stats, index, h)
  {}

  lemma HeldIsCounted(disk: Disk, t: Tree, stats: map<Hash, Stats>, index: Index, h: Hash)
    requires t.Valid() && Held(disk, t, stats, index, h)
    ensures t.Has(h) && stats.Keys == t.nodes.Keys && Counted(disk, t, stats, h)
  {}

  lemma SoundIsStored(disk: Disk, t: Tree)
    requires Sound(disk, t)
    ensures AllStored(disk, t)
  {
    forall h | t.Has(h) && t.nodes[h].prev.Some? ensures OnDisk(disk, t.nodes[h].block, t.nodes[h].at) {
      assert SoundAt(disk, t, h);
    }
  }

  // --- one block forwards or backwards

  lemma ChainStep(t: Tree, h: Hash)
    requires t.Valid() && t.Has(h) && t.nodes[h].prev.Some?
    ensures t.Chain(h) != []
    ensures t.Chain(h)[..|t.Chain(h)| - 1] == t.Chain(t.Parent(h))
    ensures t.Chain(h)[|t.Chain(h)| - 1] == Stored(t.nodes[h].block, t.nodes[h].at)
  {}

  // Where h is going to be connected
  ghost function Below(t: Tree, stats: map<Hash, Stats>, index: Index, h: Hash): State
    requires t.Valid() && t.Has(h) && t.nodes[h].prev.Some? && t.Parent(h) in stats
  {
    State(index, Tip(t.nodes[t.Parent(h)].powHeight, stats[t.Parent(h)]))
  }

  // A block connects to what is held exactly if it does in the replay.
  lemma ConnectIsReplay(disk: Disk, t: Tree, stats: map<Hash, Stats>, index: Index, h: Hash)
    requires t.Valid() && t.Has(h) && t.nodes[h].prev.Some?
    requires Held(disk, t, stats, index, t.Parent(h))
    ensures var o, p := ApplyBlock(disk, Below(t, stats, index, h), t.nodes[h].block, t.nodes[h].at), Replay(disk, t.Chain(h));
      && (o.Some? <==> p.Some?)
      && (o.Some? ==> o.value.tip == p.value.tip && Pruned(o.value.index, p.value.index))
      && (Connected(disk, t, stats, index, t.Parent(h)) ==> o == p)
  {
    hide ApplyBlock, Pruned;
    ChainStep(t, h);
    PrunedApply(disk, index, Replay(disk, t.Chain(t.Parent(h))).value.index, Below(t, stats, index, h).tip, t.nodes[h].block, t.nodes[h].at);
  }

  // Counters off the path to h do not matter.
  lemma {:induction false} CountedFrame(disk: Disk, t: Tree, stats: map<Hash, Stats>, h: Hash, x: Hash, s: Stats)
    requires t.Valid() && t.Has(h) && stats.Keys == t.nodes.Keys && t.Has(x)
    requires Counted(disk, t, stats, h) && !t.Ancestor(x, h)
    ensures Counted(disk, t, stats[x := s], h)
    decreases t.nodes[h].height
  {
    if t.nodes[h].prev.Some? {
      CountedFrame(disk, t, stats, t.Parent(h), x, s);
    }
  }

  lemma {:induction false} CountedAncestor(disk: Disk, t: Tree, stats: map<Hash, Stats>, h: Hash, a: Hash)
    requires t.Valid() && t.Has(h) && stats.Keys == t.nodes.Keys
    requires Counted(disk, t, stats, h) && t.Ancestor(a, h)
    ensures t.Has(a) && Counted(disk, t, stats, a)
    decreases t.nodes[h].height
  {
    if a != h {
      CountedAncestor(disk, t, stats, t.Parent(h), a);
    }
  }

  lemma ConnectForward(disk: Disk, t: Tree, stats: map<Hash, Stats>, index: Index, h: Hash, index': Index, s: Stats)
    requires t.Valid() && t.Has(h) && t.nodes[h].prev.Some?
    requires Held(disk, t, stats, index, t.Parent(h))
    requires ApplyBlock(disk, Below(t, stats, index, h), t.nodes[h].block, t.nodes[h].at) == Some(State(index', Tip(t.nodes[h].powHeight, s)))
    ensures Held(disk, t, stats[h := s], index', h)
    ensures Connected(disk, t, stats, index, t.Parent(h)) ==> Connected(disk, t, stats[h := s], index', h)
  {
    hide ApplyBlock, Pruned, Replay;
    ConnectIsReplay(disk, t, stats, index, h);
    NotOwnAncestor(t, h);
    CountedFrame(disk, t, stats, t.Parent(h), h, s);
  }

  // From the exact replay a block always disconnects, to the exact replay.
  lemma ConnectBackward(disk: Disk, t: Tree, stats: map<Hash, Stats>, index: Index, h: Hash)
    requires Sound(disk, t) && t.Has(h) && t.nodes[h].prev.Some?
    requires Connected(disk, t, stats, index, h)
    ensures DisconnectTxs(index, t.nodes[h].block, 0).Some?
    ensures Connected(disk, t, stats, DisconnectTxs(index, t.nodes[h].block, 0).value, t.Parent(h))
  {
    ChainStep(t, h);
    assert SoundAt(disk, t, h);
    DisconnectReplay(disk, t.Chain(t.Parent(h)), Stored(t.nodes[h].block, t.nodes[h].at));
  }

  // Whatever ids repeat, a block that does disconnect leaves what is held of its parent.
  lemma HeldBackward(disk: Disk, t: Tree, stats: map<Hash, Stats>, index: Index, h: Hash)
    requires t.Valid() && t.Has(h) && t.nodes[h].prev.Some?
    requires Held(disk, t, stats, index, h) && DisconnectTxs(index, t.nodes[h].block, 0).Some?
    ensures Held(disk, t, stats, DisconnectTxs(index, t.nodes[h].block, 0).value, t.Parent(h))
  {
    hide DisconnectTxs, Pruned, Replay;
    ChainStep(t, h);
    PrunedDisconnect(disk, index, t.Chain(t.Parent(h)), Stored(t.nodes[h].block, t.nodes[h].at));
  }

  // The index after disconnecting the blocks from h down to f, if all disconnect
  ghost function Undone(t: Tree, index: Index, f: Hash, h: Hash): Option<Index>
    requires t.Valid() && t.Has(h)
    decreases t.nodes[h].height
  {
    if h == f || t.nodes[h].prev.None? then Some(index) else
    match DisconnectTxs(index, t.nodes[h].block, 0)
    case None => None
    case Some(index') => Undone(t, index', f, t.Parent(h))
  }

  // --- when a branch connects

  // The blocks after f on the way to h pass the checks of their own.
  ghost predicate AllAllowed(rules: Rules, t: Tree, f: Hash, h: Hash)
    requires t.Valid() && t.Has(h)
    decreases t.nodes[h].height
  {
    h == f || t.nodes[h].prev.None? ||
    (Allowed(rules, t.nodes[h].block) && AllAllowed(rules, t, f, t.Parent(h)))
  }

  // ... and the whole chain to h replays.
  ghost predicate ConnectsFrom(rules: Rules, disk: Disk, t: Tree, f: Hash, h: Hash)
    requires t.Valid() && t.Has(h)
  {
    Replay(disk, t.Chain(h)).Some? && AllAllowed(rules, t, f, h)
  }

  lemma {:induction false} ReplayAncestor(disk: Disk, t: Tree, a: Hash, h: Hash)
    requires t.Valid() && t.Has(h) && t.Ancestor(a, h)
    requires Replay(disk, t.Chain(h)).Some?
    ensures t.Has(a) && Replay(disk, t.Chain(a)).Some?
    decreases t.nodes[h].height
  {
    if a != h {
      ChainStep(t, h);
      ReplayAncestor(disk, t, a, t.Parent(h));
    }
  }

  lemma {:induction false} AllowedAt(rules: Rules, t: Tree, f: Hash, h: Hash, x: Hash)
    requires t.Valid() && t.Has(h)
    requires AllAllowed(rules, t, f, h) && x in Down(t, f, h)
    ensures t.Has(x) && Allowed(rules, t.nodes[x].block)
    decreases t.nodes[h].height
  {
    if x != h {
      AllowedAt(rules, t, f, t.Parent(h), x);
    }
  }

  // A block on the way that does not connect stops everything above it.
  lemma StopsAt(rules: Rules, disk: Disk, t: Tree, f: Hash, h: Hash, x: Hash)
    requires t.Valid() && t.Has(f) && t.Has(h) && t.Ancestor(f, h) && x in Down(t, f, h)
    requires t.Has(x)
    requires !Allowed(rules, t.nodes[x].block) || Replay(disk, t.Chain(x)).None?
    ensures !ConnectsFrom(rules, disk, t, f, h)
  {
    DownIs(t, f, h, x);
    if ConnectsFrom(rules, disk, t, f, h) {
      ReplayAncestor(disk, t, x, h);
      AllowedAt(rules, t, f, h, x);
    }
  }

  lemma {:induction false} AllAllowedSplit(rules: Rules, t: Tree, f: Hash, mid: Hash, h: Hash)
    requires t.Valid() && t.Has(f) && t.Has(mid) && t.Has(h) && t.Ancestor(f, mid) && t.Ancestor(mid, h)
    ensures AllAllowed(rules, t, f, h) <==> AllAllowed(rules, t, f, mid) && AllAllowed(rules, t, mid, h)
    decreases t.nodes[h].height
  {
    if h != mid {
      var p := t.Parent(h);
      AllAllowedSplit(rules, t, f, mid, p);
      AncestorTrans(t, f, mid, p);
      NotOwnAncestor(t, h);
    }
  }

  // Connecting to h is connecting to a block on the way and then on to h.
  lemma ConnectsSplit(rules: Rules, disk: Disk, t: Tree, f: Hash, mid: Hash, h: Hash)
    requires t.Valid() && t.Has(f) && t.Has(mid) && t.Has(h) && t.Ancestor(f, mid) && t.Ancestor(mid, h)
    ensures ConnectsFrom(rules, disk, t, f, h)
       <==> ConnectsFrom(rules, disk, t, f, mid) && ConnectsFrom(rules, disk, t, mid, h)
  {
    AllAllowedSplit(rules, t, f, mid, h);
    if Replay(disk, t.Chain(h)).Some? {
      ReplayAncestor(disk, t, mid, h);
    }
  }

  // Longer chains have other indexes: the last coinbase is new.
  lemma LastCoinbaseIsNew(disk: Disk, before: seq<Stored>, last: Stored, k: nat)
    requires k <= |before| && IdsOf(before) !! last.block.Ids()
    requires Replay(disk, before + [last]).Some? && Replay(disk, before[..k]).Some?
    ensures Replay(disk, before[..k]).value.index != Replay(disk, before + [last]).value.index
  {
    var chain := before + [last];
    assert chain[..|chain| - 1] == before;
    ReplayKeys(disk, chain);
    ReplayKeys(disk, before[..k]);
    IdsPrefix(before, k);
    assert last.block.vtx[0].id in last.block.Ids();
  }

  lemma {:induction false} IdsPrefix(chain: seq<Stored>, k: nat)
    requires k <= |chain|
    ensures IdsOf(chain[..k]) <= IdsOf(chain)
  {
    if k < |chain| {
      IdsPrefix(chain[..|chain| - 1], k);
      assert chain[..|chain| - 1][..k] == chain[..k];
    } else {
      assert chain[..k] == chain;
    }
  }

  lemma IndexTellsBlocks(disk: Disk, t: Tree, a: Hash, h: Hash)
    requires Sound(disk, t) && t.Has(h) && t.Has(a) && t.Ancestor(a, h) && a != h
    requires Replay(disk, t.Chain(a)).Some? && Replay(disk, t.Chain(h)).Some?
    ensures Replay(disk, t.Chain(a)).value.index != Replay(disk, t.Chain(h)).value.index
  {
    AncestorAt(t, a, h);
    PathPrefix(t, h, t.Height(a));
    PathShape(t, h);
    ChainStep(t, h);
    assert SoundAt(disk, t, h);
    var before := t.Chain(t.Parent(h));
    assert t.Chain(h)[..t.Height(a)] == before[..t.Height(a)];
    LastCoinbaseIsNew(disk, before, Stored(t.nodes[h].block, t.nodes[h].at), t.Height(a));
  }

  // SetBestChain succeeds: the branch connects up to the first block that makes
  // it the best, and the checkpoint is not disconnected.
  ghost predicate Moves(rules: Rules, disk: Disk, t: Tree, sync: Hash, best: Hash, h: Hash)
    requires t.Valid() && t.Has(best) && t.Has(h)
  {
    && t.Ancestor(sync, ForkOf(t, best, h))
    && ConnectsFrom(rules, disk, t, ForkOf(t, best, h), Intermediate(t, best, h))
  }

  // All blocks between the old and the new best block connect.
  ghost predicate Reaches(rules: Rules, disk: Disk, t: Tree, best: Hash, h: Hash)
    requires t.Valid() && t.Has(best) && t.Has(h)
  {
    h == best || ConnectsFrom(rules, disk, t, ForkOf(t, best, h), h)
  }

  ghost predicate HoldsReplay(disk: Disk, t: Tree, index: Index, h: Hash)
    requires t.Valid() && t.Has(h)
  {
    Replay(disk, t.Chain(h)).Some? && Replay(disk, t.Chain(h)).value.index == index
  }

  // An index that is the replay to one ancestor of h is not that to another.
  lemma OnlyLastIsHeld(disk: Disk, t: Tree, stats: map<Hash, Stats>, index: Index, last: Hash, h: Hash)
    requires Sound(disk, t) && t.Has(h) && t.Has(last) && t.Ancestor(last, h)
    requires Connected(disk, t, stats, index, last)
    ensures HoldsReplay(disk, t, index, h) <==> last == h
  {
    if last != h && Replay(disk, t.Chain(h)).Some? {
      IndexTellsBlocks(disk, t, last, h);
    }
  }

  // --- growing the tree

  lemma GrowSound(disk: Disk, t: Tree, b: Block, at: FilePos)
    requires Sound(disk, t) && t.Has(b.prev) && !t.Has(b.id)
    requires OnDisk(disk, b, at) && IdsOf(t.Chain(b.prev)) !! b.Ids()
    ensures Sound(disk, Grow(t, b, at))
  {
    var t' := Grow(t, b, at);
    GrowValid(t, b, at);
    forall h | t'.Has(h) ensures SoundAt(disk, t', h) {
      if h == b.id {
        GrowKeeps(t, b, at, b.prev);
      } else if t.nodes[h].prev.Some? {
        assert SoundAt(disk, t, h);
        GrowKeeps(t, b, at, t.Parent(h));
      }
    }
  }

  lemma {:induction false} GrowCounted(disk: Disk, t: Tree, stats: map<Hash, Stats>, b: Block, at: FilePos, h: Hash)
    requires t.Valid() && t.Has(b.prev) && !t.Has(b.id) && t.Has(h)
    requires stats.Keys == t.nodes.Keys && Counted(disk, t, stats, h)
    ensures Grow(t, b, at).Valid() && Counted(disk, Grow(t, b, at), stats[b.id := NO_STATS], h)
    decreases t.nodes[h].height
  {
    GrowKeeps(t, b, at, h);
    if t.nodes[h].prev.Some? {
      GrowCounted(disk, t, stats, b, at, t.Parent(h));
    }
  }

  lemma GrowStored(disk: Disk, t: Tree, b: Block, at: FilePos)
    requires AllStored(disk, t) && t.Has(b.prev) && !t.Has(b.id) && OnDisk(disk, b, at)
    ensures AllStored(disk, Grow(t, b, at))
  {
    var t' := Grow(t, b, at);
    GrowValid(t, b, at);
    forall h | t'.Has(h) && t'.nodes[h].prev.Some? ensures OnDisk(disk, t'.nodes[h].block, t'.nodes[h].at) {
      assert h != b.id ==> t.nodes[h].block == t'.nodes[h].block;
    }
  }

  lemma GrowHeld(disk: Disk, t: Tree, stats: map<Hash, Stats>, index: Index, b: Block, at: FilePos, h: Hash)
    requires AllStored(disk, t) && t.Has(b.prev) && !t.Has(b.id) && t.Has(h) && OnDisk(disk, b, at)
    requires Held(disk, t, stats, index, h)
    ensures AllStored(disk, Grow(t, b, at)) && Links(Grow(t, b, at), h) == Links(t, h)
    ensures Held(disk, Grow(t, b, at), stats[b.id := NO_STATS], index, h)
  {
    hide Replay, Links, Pruned;
    GrowStored(disk, t, b, at);
    GrowCounted(disk, t, stats, b, at, h);
    GrowKeeps(t, b, at, h);
    GrowKeepsLinks(t, b, at, h);
  }

  lemma GrowConnected(disk: Disk, t: Tree, stats: map<Hash, Stats>, index: Index, b: Block, at: FilePos, h: Hash)
    requires Sound(disk, t) && t.Has(b.prev) && !t.Has(b.id) && t.Has(h)
    requires OnDisk(disk, b, at) && IdsOf(t.Chain(b.prev)) !! b.Ids()
    requires Connected(disk, t, stats, index, h)
    ensures Sound(disk, Grow(t, b, at)) && Links(Grow(t, b, at), h) == Links(t, h)
    ensures Connected(disk, Grow(t, b, at), stats[b.id := NO_STATS], index, h)
  {
    hide Replay, ApplyBlock, Links;
    GrowSound(disk, t, b, at);
    GrowCounted(disk, t, stats, b, at, h);
    GrowKeeps(t, b, at, h);
    GrowKeepsLinks(t, b, at, h);
  }

  class Chain {
    const disk: Disk
    const txdb: TxDb
    var tree: Tree
    var next: map<Hash, Hash>
    var stats: map<Hash, Stats>
    var tip: Hash
    var sync: Hash

    // What every step keeps, whether or not blocks connect as they should
    ghost predicate Steady()
      reads this
    {
      && tree.Valid() && tree.Has(tip)
      && stats.Keys == tree.nodes.Keys
      && LinksBelow(tree, next, tip)
      && tree.Ancestor(sync, tip)
    }

    // Counters and links are those of the best chain, and the index is its replay,
    // perhaps without some fully spent entries.
    ghost predicate Accounted()
      reads this, txdb
    {
      && AllStored(disk, tree) && tree.Has(tip)
      && Held(disk, tree, stats, txdb.index, tip)
      && next == Links(tree, tip)
      && tree.Ancestor(sync, tip)
    }

    // Index, counters and links are those of the best chain, and no block in the
    // tree repeats a transaction id of its ancestors.
    ghost predicate Valid()
      reads this, txdb
    {
      && Sound(disk, tree) && tree.Has(tip)
      && Connected(disk, tree, stats, txdb.index, tip)
      && next == Links(tree, tip)
      && tree.Ancestor(sync, tip)
    }

    // IsInMainChain tells the best block and its ancestors from all others.
    ghost predicate Exact()
      reads this
      requires tree.Valid() && tree.Has(tip)
    {
      forall x | tree.Has(x) :: IsInMainChain(x) <==> tree.Ancestor(x, tip)
    }

    // b is on disk at this place and repeats no transaction id of its ancestors.
    ghost predicate Fits(b: Block, at: FilePos)
      reads this
      requires tree.Valid() && tree.Has(b.prev)
    {
      OnDisk(disk, b, at) && IdsOf(tree.Chain(b.prev)) !! b.Ids()
    }

    // Accepting the genesis block: it is never connected.
    constructor (disk: Disk, genesis: Block, at: FilePos)
      ensures Valid() && Steady() && fresh(txdb)
      ensures tip == sync == genesis.id && this.disk == disk
      ensures tree == Tree(map[genesis.id := Node(genesis, at, None, 0, 0, BlockTrust(genesis))], genesis.id, BlockTrust)
    {
      this.disk := disk;
      txdb := new TxDb();
      tree := Tree(map[genesis.id := Node(genesis, at, None, 0, 0, BlockTrust(genesis))], genesis.id, BlockTrust);
      next := map[];
      stats := map[genesis.id := NO_STATS];
      tip, sync := genesis.id, genesis.id;
    }

    predicate IsInMainChain(h: Hash)
      reads this
    {
      h in next || h == tip
    }

    // Attaches one block to the chain that txdb currently holds.
    method SetBestChainInner(rules: Rules, h: Hash) returns (ok: bool)
      requires tree.Valid() && tree.Has(h) && tree.nodes[h].prev.Some? && stats.Keys == tree.nodes.Keys
      requires txdb.saved == Some(txdb.index)
      modifies this`next, this`stats, txdb
      ensures txdb.saved == None && stats.Keys == tree.nodes.Keys
      ensures next == if ok then old(next)[tree.Parent(h) := h] else old(next)
      ensures !ok ==> txdb.index == old(txdb.index) && stats == old(stats)
      ensures old(Held(disk, tree, stats, txdb.index, tree.Parent(h))) ==>
        && (ok <==> Allowed(rules, tree.nodes[h].block) && Replay(disk, tree.Chain(h)).Some?)
        && (ok ==> Held(disk, tree, stats, txdb.index, h))
      ensures old(Connected(disk, tree, stats, txdb.index, tree.Parent(h))) && ok ==> Connected(disk, tree, stats, txdb.index, h)
    {
      hide Replay, ApplyBlock, Allowed, Pruned;
      var node := tree.nodes[h];
      var p := tree.Parent(h);
      ghost var fine := Held(disk, tree, stats, txdb.index, p);
      if Connected(disk, tree, stats, txdb.index, p) {
        ConnectedIsHeld(disk, tree, stats, txdb.index, p);
      }
      if fine {
        ConnectIsReplay(disk, tree, stats, txdb.index, h);
      }
      var r := ConnectBlock(rules, disk, txdb, Tip(tree.nodes[p].powHeight, stats[p]), node.block, node.at);
      if r.None? {
        txdb.TxnAbort();
        return false;
      }
      if fine {
        ConnectForward(disk, tree, stats, old(txdb.index), h, txdb.index, r.value);
      }
      stats := stats[h := r.value];
      txdb.TxnCommit();
      next := next[p := h];
      return true;
    }

    // vDisconnect, refused if it holds the synchronized checkpoint
    method BlocksToDisconnect(fork: Hash) returns (ok: bool, down: seq<Hash>)
      requires Steady() && tree.Has(fork) && tree.Ancestor(fork, tip)
      ensures ok <==> tree.Ancestor(sync, fork)
      ensures down == Down(tree, fork, tip)
    {
      down := ListDown(tree, fork, tip);
      ok := sync !in down;
      DownIs(tree, fork, tip, sync);
    }

    // From a replayed state this cannot fail.
    method DisconnectBranch(fork: Hash, down: seq<Hash>) returns (ok: bool)
      requires tree.Valid() && tree.Has(tip) && tree.Has(fork) && tree.Ancestor(fork, tip)
      requires down == Down(tree, fork, tip)
      modifies txdb`index
      ensures Sound(disk, tree) && old(Connected(disk, tree, stats, txdb.index, tip)) ==>
        ok && Connected(disk, tree, stats, txdb.index, fork)
      ensures old(Held(disk, tree, stats, txdb.index, tip)) && ok ==> Held(disk, tree, stats, txdb.index, fork)
      ensures ok <==> Undone(tree, old(txdb.index), fork, tip).Some?
    {
      hide Replay, ApplyBlock, Allowed, Sound, Connected, Held;
      ghost var fine := Sound(disk, tree) && Connected(disk, tree, stats, txdb.index, tip);
      ghost var held := Held(disk, tree, stats, txdb.index, tip);
      ghost var x := tip;
      for i := 0 to |down|
        invariant tree.Has(x) && tree.Ancestor(fork, x)
        invariant down[i..] == Down(tree, fork, x)
        invariant fine ==> Connected(disk, tree, stats, txdb.index, x)
        invariant held ==> Held(disk, tree, stats, txdb.index, x)
        invariant Undone(tree, txdb.index, fork, x) == Undone(tree, old(txdb.index), fork, tip)
      {
        assert down[i] == x && down[i + 1..] == Down(tree, fork, tree.Parent(x));
        if fine {
          ConnectBackward(disk, tree, stats, txdb.index, x);
        }
        ghost var was := txdb.index;
        ok := DisconnectBlock(txdb, tree.nodes[down[i]].block);
        if !ok {
          return false;
        }
        if held {
          HeldBackward(disk, tree, stats, was, x);
        }
        x := tree.Parent(x);
      }
      return true;
    }

    // Connects one block of the new branch inside the open database transaction.
    method ConnectOne(rules: Rules, h: Hash) returns (ok: bool)
      requires tree.Valid() && tree.Has(h) && tree.nodes[h].prev.Some? && stats.Keys == tree.nodes.Keys
      modifies this`stats, txdb`index
      ensures stats.Keys == tree.nodes.Keys
      ensures old(Held(disk, tree, stats, txdb.index, tree.Parent(h))) ==>
        && (ok <==> Allowed(rules, tree.nodes[h].block) && Replay(disk, tree.Chain(h)).Some?)
        && (ok ==> Held(disk, tree, stats, txdb.index, h))
      ensures old(Connected(disk, tree, stats, txdb.index, tree.Parent(h))) && ok ==> Connected(disk, tree, stats, txdb.index, h)
      ensures tree.Has(tip) && old(Counted(disk, tree, stats, tip)) && !tree.Ancestor(h, tip) ==>
        Counted(disk, tree, stats, tip)
    {
      hide Replay, ApplyBlock, Allowed, Pruned;
      var node := tree.nodes[h];
      var p := tree.Parent(h);
      ghost var fine := Held(disk, tree, stats, txdb.index, p);
      if Connected(disk, tree, stats, txdb.index, p) {
        ConnectedIsHeld(disk, tree, stats, txdb.index, p);
      }
      if fine {
        ConnectIsReplay(disk, tree, stats, txdb.index, h);
      }
      var r := ConnectBlock(rules, disk, txdb, Tip(tree.nodes[p].powHeight, stats[p]), node.block, node.at);
      ok := r.Some?;
      if ok {
        if fine {
          ConnectForward(disk, tree, stats, old(txdb.index), h, txdb.index, r.value);
        }
        if tree.Has(tip) && Counted(disk, tree, stats, tip) && !tree.Ancestor(h, tip) {
          CountedFrame(disk, tree, stats, tip, h, r.value);
        }
        stats := stats[h := r.value];
      }
    }

    method ConnectBranch(rules: Rules, fork: Hash, h: Hash, up: seq<Hash>) returns (ok: bool)
      requires tree.Valid() && tree.Has(tip) && tree.Has(h) && IsFork(tree, fork, tip, h)
      requires stats.Keys == tree.nodes.Keys && up == Up(tree, fork, h)
      modifies this`stats, txdb`index
      ensures stats.Keys == tree.nodes.Keys
      ensures old(Held(disk, tree, stats, txdb.index, fork) && Counted(disk, tree, stats, tip)) ==>
        && (ok <==> ConnectsFrom(rules, disk, tree, fork, h))
        && (ok ==> Held(disk, tree, stats, txdb.index, h))
        && Counted(disk, tree, stats, tip)
      ensures old(Connected(disk, tree, stats, txdb.index, fork)) && ok ==> Connected(disk, tree, stats, txdb.index, h)
    {
      hide Replay, ApplyBlock, Allowed, Pruned, Connected;
      ghost var fine := Held(disk, tree, stats, txdb.index, fork) && Counted(disk, tree, stats, tip);
      ghost var exact := Connected(disk, tree, stats, txdb.index, fork);
      ghost var x := fork;
      for i := 0 to |up|
        invariant stats.Keys == tree.nodes.Keys
        invariant x == if i == 0 then fork else up[i - 1]
        invariant fine ==>
          && Counted(disk, tree, stats, tip)
          && Held(disk, tree, stats, txdb.index, x)
          && AllAllowed(rules, tree, fork, x)
        invariant exact ==> Connected(disk, tree, stats, txdb.index, x)
      {
        UpAt(tree, fork, h, i);
        AboveFork(tree, fork, tip, h, up[i]);
        ok := ConnectOne(rules, up[i]);
        if !ok {
          if fine {
            StopsAt(rules, disk, tree, fork, h, up[i]);
          }
          return false;
        }
        x := up[i];
      }
      UpEmpty(tree, fork, h);
      return true;
    }

    // Takes the pnext links of the old branch away.
    method Unlink(fork: Hash, down: seq<Hash>)
      requires tree.Valid() && tree.Has(tip) && tree.Has(fork) && tree.Ancestor(fork, tip)
      requires LinksBelow(tree, next, tip) && down == Down(tree, fork, tip)
      modifies this`next
      ensures LinksBelow(tree, next, fork)
      ensures old(next) == Links(tree, tip) ==> next == Links(tree, fork)
    {
      hide LinksBelow;
      ghost var exact := next == Links(tree, tip);
      ghost var x := tip;
      for i := 0 to |down|
        invariant tree.Has(x) && tree.Ancestor(fork, x)
        invariant down[i..] == Down(tree, fork, x)
        invariant LinksBelow(tree, next, x) && (exact ==> next == Links(tree, x))
      {
        assert down[i] == x && down[i + 1..] == Down(tree, fork, tree.Parent(x));
        LinksBack(tree, x);
        UnlinkBelow(tree, next, x);
        next := next - {tree.Parent(down[i])};
        x := tree.Parent(x);
      }
    }

    // Sets those of the new branch.
    method Link(fork: Hash, h: Hash, up: seq<Hash>)
      requires tree.Valid() && tree.Has(fork) && tree.Has(h) && tree.Ancestor(fork, h)
      requires LinksBelow(tree, next, fork) && up == Up(tree, fork, h)
      modifies this`next
      ensures LinksBelow(tree, next, h)
      ensures old(next) == Links(tree, fork) ==> next == Links(tree, h)
    {
      hide LinksBelow;
      ghost var exact := next == Links(tree, fork);
      ghost var x := fork;
      for i := 0 to |up|
        invariant x == if i == 0 then fork else up[i - 1]
        invariant tree.Has(x) && LinksBelow(tree, next, x) && (exact ==> next == Links(tree, x))
      {
        UpAt(tree, fork, h, i);
        LinkBelow(tree, next, up[i]);
        next := next[tree.Parent(up[i]) := up[i]];
        x := up[i];
      }
      UpEmpty(tree, fork, h);
    }

    // The fork, what to disconnect and what to connect
    method Plan(h: Hash) returns (ok: bool, f: Hash, down: seq<Hash>, up: seq<Hash>)
      requires Steady() && tree.Has(h)
      ensures f == ForkOf(tree, tip, h) && IsFork(tree, f, tip, h)
      ensures ok <==> tree.Ancestor(sync, f)
      ensures ok ==> tree.Ancestor(sync, h) && down == Down(tree, f, tip) && up == Up(tree, f, h)
    {
      hide LinksBelow;
      f := FindFork(tree, tip, h);
      ForkOfIsFork(tree, tip, h);
      ForkUnique(tree, f, ForkOf(tree, tip, h), tip, h);
      up := [];
      ok, down := BlocksToDisconnect(f);
      if ok {
        AncestorTrans(tree, sync, f, h);
        up := ListDown(tree, f, h);
        UpReversesDown(tree, f, h);
        up := Reversed(up);
      }
    }

    method Reorganize(rules: Rules, h: Hash) returns (ok: bool)
      requires Steady() && tree.Has(h)
      requires txdb.saved == Some(txdb.index)
      modifies this`next, this`stats, txdb
      ensures stats.Keys == tree.nodes.Keys
      ensures ok ==> LinksBelow(tree, next, h) && tree.Ancestor(sync, h) && txdb.saved == None
      ensures !ok ==> next == old(next)
      ensures !ok ==> txdb.saved == old(txdb.saved) || (txdb.saved == None && txdb.index == old(txdb.index))
      ensures old(Valid()) ==>
        && (ok <==> tree.Ancestor(sync, ForkOf(tree, tip, h)) && ConnectsFrom(rules, disk, tree, ForkOf(tree, tip, h), h))
        && (ok ==> Connected(disk, tree, stats, txdb.index, h) && next == Links(tree, h))
        && (!ok ==> Counted(disk, tree, stats, tip))
      ensures old(Accounted()) ==>
        && (ok <==>
              && tree.Ancestor(sync, ForkOf(tree, tip, h)) && ConnectsFrom(rules, disk, tree, ForkOf(tree, tip, h), h)
              && Undone(tree, old(txdb.index), ForkOf(tree, tip, h), tip).Some?)
        && (ok ==> Held(disk, tree, stats, txdb.index, h) && next == Links(tree, h))
        && (!ok ==> Counted(disk, tree, stats, tip))
    {
      hide Connected, Held, Counted, ConnectsFrom, LinksBelow, Sound, AllStored, Down, Up, WellFormed, Undone;
      if Valid() {
        ValidIsAccounted(this);
      }
      if Accounted() {
        HeldIsCounted(disk, tree, stats, txdb.index, tip);
      }
      var f, down, up;
      ok, f, down, up := Plan(h);
      if !ok {
        return false;
      }
      ok := DisconnectBranch(f, down);
      if !ok {
        return false;
      }
      if Connected(disk, tree, stats, txdb.index, f) {
        ConnectedIsHeld(disk, tree, stats, txdb.index, f);
      }
      ok := ConnectBranch(rules, f, h, up);
      if !ok {
        txdb.TxnAbort();
        return false;
      }
      txdb.TxnCommit();
      Unlink(f, down);
      Link(f, h, up);
    }

    // The block that Reorganize goes to, and the blocks postponed until after it
    method Postpone(h: Hash) returns (mid: Hash, secondary: seq<Hash>)
      requires tree.Valid() && tree.Has(tip) && tree.Has(h)
      ensures mid == Intermediate(tree, tip, h)
      ensures tree.Has(mid) && tree.Ancestor(mid, h) && secondary == Down(tree, mid, h)
    {
      hide Down, Intermediate, WellFormed;
      mid, secondary := h, [];
      ghost var m := Intermediate(tree, tip, h);
      SameFork(tree, tip, h, tip);
      while tree.nodes[mid].prev.Some? && tree.nodes[tree.Parent(mid)].trust > tree.nodes[tip].trust
        invariant tree.Has(mid) && Intermediate(tree, tip, mid) == m
        invariant secondary + Down(tree, m, mid) == Down(tree, m, h)
        decreases tree.nodes[mid].height
      {
        PostponeOne(tree, tip, mid);
        assert secondary + [mid] + Down(tree, m, tree.Parent(mid)) == secondary + Down(tree, m, mid);
        secondary := secondary + [mid];
        mid := tree.Parent(mid);
      }
      PostponeNone(tree, tip, mid);
      assert secondary + [] == secondary;
    }

    // Connects the postponed blocks, each in a database transaction of its own,
    // and stops quietly at the first that fails.
    method ConnectPostponed(rules: Rules, mid: Hash, h: Hash, up: seq<Hash>) returns (ghost last: Hash)
      requires tree.Valid() && tree.Has(mid) && tree.Has(h) && tree.Ancestor(mid, h)
      requires stats.Keys == tree.nodes.Keys && LinksBelow(tree, next, mid)
      requires up == Up(tree, mid, h)
      modifies this`next, this`stats, txdb
      ensures stats.Keys == tree.nodes.Keys && LinksBelow(tree, next, h)
      ensures old(Held(disk, tree, stats, txdb.index, mid) && next == Links(tree, mid)) ==>
        && Held(disk, tree, stats, txdb.index, last) && next == Links(tree, last)
        && tree.Ancestor(last, h)
        && (last == h <==> ConnectsFrom(rules, disk, tree, mid, h))
      ensures old(Connected(disk, tree, stats, txdb.index, mid)) ==> tree.Has(last) && Connected(disk, tree, stats, txdb.index, last)
    {
      hide Replay, ApplyBlock, Allowed, LinksBelow, Pruned, Connected;
      ghost var fine := Held(disk, tree, stats, txdb.index, mid) && next == Links(tree, mid);
      ghost var exact := Connected(disk, tree, stats, txdb.index, mid);
      last := mid;
      for i := 0 to |up|
        invariant last == if i == 0 then mid else up[i - 1]
        invariant stats.Keys == tree.nodes.Keys
        invariant tree.Has(last) && tree.Ancestor(last, h) && LinksBelow(tree, next, last)
        invariant fine ==>
          && Held(disk, tree, stats, txdb.index, last) && next == Links(tree, last)
          && AllAllowed(rules, tree, mid, last)
        invariant exact ==> Connected(disk, tree, stats, txdb.index, last)
      {
        UpAt(tree, mid, h, i);
        LinkBelow(tree, next, up[i]);
        txdb.TxnBegin();
        var ok := SetBestChainInner(rules, up[i]);
        if !ok {
          BelowDescendant(tree, next, last, h);
          if fine {
            StopsAt(rules, disk, tree, mid, h, up[i]);
          }
          return;
        }
        last := up[i];
      }
      UpEmpty(tree, mid, h);
    }

    // The block builds on the best block.
    method ExtendTip(rules: Rules, h: Hash) returns (ok: bool)
      requires Steady() && tree.Has(h) && tree.nodes[h].prev == Some(tip)
      requires txdb.saved == Some(txdb.index)
      modifies this`next, this`stats, txdb
      ensures stats.Keys == tree.nodes.Keys
      ensures ok ==> LinksBelow(tree, next, h) && tree.Ancestor(sync, h)
      ensures !ok ==> txdb.index == old(txdb.index) && next == old(next) && stats == old(stats)
      ensures old(Valid()) ==>
        && (ok <==> Moves(rules, disk, tree, sync, tip, h))
        && (ok <==> ConnectsFrom(rules, disk, tree, ForkOf(tree, tip, h), h))
        && (ok ==> Connected(disk, tree, stats, txdb.index, h) && next == Links(tree, h))
      ensures old(Accounted()) ==>
        && (ok <==> Moves(rules, disk, tree, sync, tip, h))
        && (ok <==> ConnectsFrom(rules, disk, tree, ForkOf(tree, tip, h), h))
        && (ok ==> Held(disk, tree, stats, txdb.index, h) && next == Links(tree, h))
    {
      hide Replay, ApplyBlock, Allowed, LinksBelow, AllStored, Sound, Pruned;
      if Valid() {
        ValidIsAccounted(this);
      }
      assert tree.Parent(h) == tip;
      NotOwnAncestor(tree, h);
      ParentIsAncestor(tree, h);
      AncestorTrans(tree, sync, tip, h);
      LinkBelow(tree, next, h);
      DirectMoves(rules, disk, tree, sync, tip, h);
      ok := SetBestChainInner(rules, h);
    }

    // The block is on another branch, or behind the best block.
    method SwitchBranch(rules: Rules, h: Hash) returns (ok: bool, ghost last: Hash)
      requires Steady() && tree.Has(h)
      requires txdb.saved == Some(txdb.index)
      modifies this`next, this`stats, txdb
      ensures stats.Keys == tree.nodes.Keys
      ensures ok ==> LinksBelow(tree, next, h) && tree.Ancestor(sync, h)
      ensures !ok ==> txdb.index == old(txdb.index) && next == old(next)
      ensures old(Valid()) ==>
        && (ok <==> Moves(rules, disk, tree, sync, tip, h))
        && (!ok ==> Counted(disk, tree, stats, tip))
        && (ok ==> Connected(disk, tree, stats, txdb.index, last) && next == Links(tree, last) && tree.Ancestor(last, h))
        && (ok ==> (last == h <==> ConnectsFrom(rules, disk, tree, ForkOf(tree, tip, h), h)))
      ensures old(Accounted()) ==>
        && (ok <==> Moves(rules, disk, tree, sync, tip, h) && Undone(tree, old(txdb.index), ForkOf(tree, tip, h), tip).Some?)
        && (!ok ==> Counted(disk, tree, stats, tip))
        && (ok ==> Held(disk, tree, stats, txdb.index, last) && next == Links(tree, last) && tree.Ancestor(last, h))
        && (ok ==> (last == h <==> ConnectsFrom(rules, disk, tree, ForkOf(tree, tip, h), h)))
    {
      hide Replay, ApplyBlock, Allowed, ConnectsFrom, LinksBelow, Sound, AllStored, Pruned;
      if Valid() {
        ValidIsAccounted(this);
      }
      ghost var fork := ForkOf(tree, tip, h);
      last := fork;
      var mid, secondary := Postpone(h);
      SameForkOf(tree, tip, h);
      ok := Reorganize(rules, mid);
      if !ok {
        txdb.TxnAbort();
        return;
      }
      AncestorTrans(tree, sync, mid, h);
      UpReversesDown(tree, mid, h);
      last := ConnectPostponed(rules, mid, h, Reversed(secondary));
      ConnectsSplit(rules, disk, tree, fork, mid, h);
    }

    /** Makes h the best block.  A failure changes neither index nor links nor best
        block, and every step keeps the checkpoint behind the best block.

        From a state whose index is the replay it succeeds exactly if the branch
        connects up to the block where it becomes the best and the checkpoint
        stays on it.  The new index is then the replay, and IsInMainChain tells
        the new best chain from the other blocks, exactly if the postponed blocks
        connect as well: a failure among those is not reported.

        Where ids repeat, the same holds of an index that lacks some fully spent
        entries, but for one thing: blocks that use a lost entry do not disconnect.
        It then succeeds exactly if besides the old branch disconnects. */
    method SetBestChain(rules: Rules, h: Hash) returns (ok: bool)
      requires Steady() && tree.Has(h)
      modifies this`next, this`stats, this`tip, txdb
      ensures Steady()
      ensures ok ==> tip == h
      ensures !ok ==> tip == old(tip) && next == old(next) && txdb.index == old(txdb.index)
      ensures old(Valid()) ==>
        && (ok <==> Moves(rules, disk, tree, sync, old(tip), h))
        && (!ok ==> Valid())
        && (ok ==> (Valid() <==> ConnectsFrom(rules, disk, tree, ForkOf(tree, old(tip), h), h)))
        && (ok ==> (HoldsReplay(disk, tree, txdb.index, h) <==> ConnectsFrom(rules, disk, tree, ForkOf(tree, old(tip), h), h)))
      ensures old(Accounted()) ==>
        && (ok <==> Moves(rules, disk, tree, sync, old(tip), h) && Undone(tree, old(txdb.index), ForkOf(tree, old(tip), h), old(tip)).Some?)
        && (!ok ==> Accounted())
        && (ok ==> (Accounted() <==> ConnectsFrom(rules, disk, tree, ForkOf(tree, old(tip), h), h)))
        && (ok ==> (Exact() <==> ConnectsFrom(rules, disk, tree, ForkOf(tree, old(tip), h), h)))
    {
      hide Replay, ApplyBlock, Allowed, ConnectsFrom, LinksBelow, HoldsReplay, Sound, Moves, AllStored, Pruned;
      ghost var fine, held := Valid(), Accounted();
      if fine {
        ValidIsAccounted(this);
      }
      ghost var last := h;
      txdb.TxnBegin();
      if tree.nodes[h].prev == Some(tip) {
        DirectFork(tree, tip, h);
        ok := ExtendTip(rules, h);
        PathShape(tree, h);
      } else {
        ok, last := SwitchBranch(rules, h);
      }
      if ok {
        tip := h;
        if fine {
          ReplayHeld(disk, tree, stats, txdb.index, last, h);
        }
        if fine || held {
          ExactFor(this, last);
        }
      }
    }

    /** A block is indexed once, and becomes the best block only with more trust. */
    method AddToBlockIndex(rules: Rules, b: Block, at: FilePos) returns (ok: bool)
      requires Steady() && tree.Has(b.prev)
      modifies this`tree, this`next, this`stats, this`tip, txdb
      ensures Steady()
      ensures old(tree.Has(b.id)) ==> !ok && tree == old(tree) && tip == old(tip) && stats == old(stats)
      ensures !old(tree.Has(b.id)) ==> tree == Grow(old(tree), b, at) && tree.Has(old(tip))
      ensures !old(tree.Has(b.id)) ==> (ok <==> (tree.nodes[b.id].trust > tree.nodes[old(tip)].trust ==> tip == b.id))
      ensures tip == old(tip) ==> next == old(next) && txdb.index == old(txdb.index)
      ensures tip != old(tip) ==> ok && tip == b.id && tree.nodes[tip].trust > tree.nodes[old(tip)].trust
      ensures old(Valid() && Fits(b, at) && !tree.Has(b.id)) ==>
        && (tip == b.id <==> tree.nodes[b.id].trust > tree.nodes[old(tip)].trust && Moves(rules, disk, tree, sync, old(tip), b.id))
        && (tip == old(tip) ==> Valid())
        && (tip == b.id ==> (Valid() <==> ConnectsFrom(rules, disk, tree, ForkOf(tree, old(tip), b.id), b.id)))
      ensures old(Accounted() && !tree.Has(b.id)) && OnDisk(disk, b, at) ==>
        && (tip == old(tip) ==> Accounted())
        && (tip == b.id <==>
              && tree.nodes[b.id].trust > tree.nodes[old(tip)].trust && Moves(rules, disk, tree, sync, old(tip), b.id)
              && Undone(tree, old(txdb.index), ForkOf(tree, old(tip), b.id), old(tip)).Some?)
        && (tip == b.id ==> (Accounted() <==> ConnectsFrom(rules, disk, tree, ForkOf(tree, old(tip), b.id), b.id)))
        && (tip == b.id ==> (Exact() <==> ConnectsFrom(rules, disk, tree, ForkOf(tree, old(tip), b.id), b.id)))
    {
      hide Held, AllStored, Connected, ConnectsFrom, LinksBelow, Links, HoldsReplay, Sound, Moves, Exact, WellFormed, OnDisk, IdsOf;
      if b.id in tree.nodes {
        return false;
      }
      if Valid() && Fits(b, at) {
        GrowConnected(disk, tree, stats, txdb.index, b, at, tip);
      }
      if Accounted() && OnDisk(disk, b, at) {
        GrowHeld(disk, tree, stats, txdb.index, b, at, tip);
      }
      GrowKeeps(tree, b, at, tip);
      GrowKeepsBelow(tree, b, at, next, tip);
      tree := Grow(tree, b, at);
      stats := stats[b.id := NO_STATS];
      if tree.nodes[b.id].trust > tree.nodes[tip].trust {
        ok := SetBestChain(rules, b.id);
        return ok;
      }
      return true;
    }
  }

  lemma PostponeOne(t: Tree, best: Hash, h: Hash)
    requires t.Valid() && t.Has(best) && t.Has(h)
    requires t.nodes[h].prev.Some? && t.nodes[t.Parent(h)].trust > t.nodes[best].trust
    ensures Intermediate(t, best, t.Parent(h)) == Intermediate(t, best, h)
    ensures Down(t, Intermediate(t, best, h), h) == [h] + Down(t, Intermediate(t, best, h), t.Parent(h))
  {
    SameFork(t, best, t.Parent(h), best);
    NotOwnAncestor(t, h);
  }

  lemma PostponeNone(t: Tree, best: Hash, h: Hash)
    requires t.Valid() && t.Has(best) && t.Has(h)
    requires !(t.nodes[h].prev.Some? && t.nodes[t.Parent(h)].trust > t.nodes[best].trust)
    ensures Intermediate(t, best, h) == h && Down(t, h, h) == []
  {}

  lemma DirectFork(t: Tree, best: Hash, h: Hash)
    requires t.Valid() && t.Has(best) && t.Has(h) && t.nodes[h].prev == Some(best)
    ensures t.Parent(h) == best && ForkOf(t, best, h) == best && Intermediate(t, best, h) == h
  {
    NotOwnAncestor(t, h);
    PathShape(t, best);
  }

  lemma DirectMoves(rules: Rules, disk: Disk, t: Tree, sync: Hash, best: Hash, h: Hash)
    requires t.Valid() && t.Has(best) && t.Has(h) && t.nodes[h].prev == Some(best) && !t.Ancestor(h, best)
    requires t.Ancestor(sync, best)
    ensures Moves(rules, disk, t, sync, best, h)
       <==> Allowed(rules, t.nodes[h].block) && Replay(disk, t.Chain(h)).Some?
    ensures Moves(rules, disk, t, sync, best, h) <==> ConnectsFrom(rules, disk, t, ForkOf(t, best, h), h)
  {
    hide Replay, Allowed;
    DirectFork(t, best, h);
    assert AllAllowed(rules, t, best, best);
  }

  // The index is the replay to h exactly if the last block connected is h.
  lemma ReplayHeld(disk: Disk, t: Tree, stats: map<Hash, Stats>, index: Index, last: Hash, h: Hash)
    requires Sound(disk, t) && t.Has(h) && t.Has(last) && t.Ancestor(last, h)
    requires Connected(disk, t, stats, index, last)
    ensures HoldsReplay(disk, t, index, h) <==> last == h
    ensures Connected(disk, t, stats, index, h) <==> last == h
  {
    OnlyLastIsHeld(disk, t, stats, index, last, h);
  }

  // Links that end at last tell the best chain exactly if last is the best block.
  lemma ExactFor(c: Chain, last: Hash)
    requires c.tree.Valid() && c.tree.Has(c.tip) && c.tree.Has(last) && c.tree.Ancestor(last, c.tip)
    requires c.next == Links(c.tree, last)
    ensures c.Exact() <==> last == c.tip
    ensures c.next == Links(c.tree, c.tip) <==> last == c.tip
  {
    forall x ensures x in c.next <==> c.tree.Ancestor(x, last) && x != last {
      LinksKeys(c.tree, last, x);
    }
    PathShape(c.tree, last);
    PathShape(c.tree, c.tip);
    LinksKeys(c.tree, c.tip, last);
  }

  /** In every state IsInMainChain holds for nothing but the best block and its
      ancestors, and with complete links for all of them. */
  lemma MainChainIsAncestry(c: Chain, h: Hash)
    requires c.Steady() && c.tree.Has(h)
    ensures c.IsInMainChain(h) ==> c.tree.Ancestor(h, c.tip)
    ensures c.next == Links(c.tree, c.tip) ==> (c.IsInMainChain(h) <==> c.tree.Ancestor(h, c.tip))
  {
    LinksKeys(c.tree, c.tip, h);
    PathShape(c.tree, c.tip);
  }

  lemma ValidIsAccounted(c: Chain)
    requires c.Valid()
    ensures c.Accounted()
  {
    SoundIsStored(c.disk, c.tree);
    ConnectedIsHeld(c.disk, c.tree, c.stats, c.txdb.index, c.tip);
  }

  lemma {:induction false} ChainOnDisk(disk: Disk, t: Tree, h: Hash)
    requires AllStored(disk, t) && t.Has(h)
    ensures AllOnDisk(disk, t.Chain(h))
    decreases t.nodes[h].height
  {
    if t.nodes[h].prev.Some? {
      assert OnDisk(disk, t.nodes[h].block, t.nodes[h].at);
      ChainOnDisk(disk, t, t.Parent(h));
    }
  }

  /** The accounts at the best block, in whatever order blocks arrived, however
      often the chain was reorganised and whatever transaction ids repeat: the
      supply counter is the value of the unspent outputs in the index, it is the
      subsidy of the proof-of-work heights plus stake debt, and so it is capped. */
  lemma TipAccounts(c: Chain)
    requires c.Accounted()
    ensures UnspentTotal(c.disk, c.txdb.index) == c.stats[c.tip].supply
    ensures c.stats[c.tip].supply - c.stats[c.tip].posDebt == SubsidySum(c.tree.nodes[c.tip].powHeight)
    ensures c.stats[c.tip].supply <= 21_024_000 * COIN + if c.stats[c.tip].posDebt > 0 then c.stats[c.tip].posDebt else 0
  {
    hide Pruned, Replay, FullSubsidy;
    var chain := c.tree.Chain(c.tip);
    ChainOnDisk(c.disk, c.tree, c.tip);
    PrunedTotal(c.disk, c.txdb.index, Replay(c.disk, chain).value.index);
    SupplyIsUnspentTotal(c.disk, chain);
    SupplyIsSubsidyPlusDebt(c.disk, chain);
    SupplyCap(c.disk, chain);
  }
}

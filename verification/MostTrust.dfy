/**
 Which block a node ends on: of all blocks it holds that connect, one with the most
 trust.
 */
module MostTrust {
  import opened Basics
  import opened Transactions
  import opened Ledger
  import opened BlockTree
  import opened BlockConnection
  import opened ChainState
  import opened Checkpoints

  // All blocks from genesis to h connect.
  ghost predicate Connects(rules: Rules, disk: Disk, t: Tree, h: Hash)
    requires t.Valid() && t.Has(h)
  {
    ConnectsFrom(rules, disk, t, t.genesis, h)
  }

  // The best block connects, and no block that builds on the checkpoint and
  // connects has more trust.
  ghost predicate Leading(rules: Rules, disk: Disk, v: View) {
    && Anchored(v)
    && Connects(rules, disk, v.tree, v.tip)
    && forall h | v.tree.Has(h) && v.tree.Ancestor(v.sync, h) && Connects(rules, disk, v.tree, h) ::
         v.tree.nodes[h].trust <= v.tree.nodes[v.tip].trust
  }

  lemma GenesisLeads(rules: Rules, disk: Disk, v: View)
    requires v.tree.Valid() && v.tip == v.sync == v.tree.genesis && v.tree.nodes.Keys == {v.tip}
    ensures Leading(rules, disk, v)
  {
    PathShape(v.tree, v.tip);
  }

  lemma {:induction false} GrowAllowed(rules: Rules, t: Tree, b: Block, at: FilePos, f: Hash, h: Hash)
    requires t.Valid() && t.Has(b.prev) && !t.Has(b.id) && t.Has(h)
    ensures Grow(t, b, at).Valid() && (AllAllowed(rules, Grow(t, b, at), f, h) <==> AllAllowed(rules, t, f, h))
    decreases t.nodes[h].height
  {
    GrowValid(t, b, at);
    if t.nodes[h].prev.Some? {
      GrowAllowed(rules, t, b, at, f, t.Parent(h));
    }
  }

  // A new block changes nothing about the others.
  lemma GrowConnects(rules: Rules, disk: Disk, t: Tree, b: Block, at: FilePos, a: Hash, h: Hash)
    requires t.Valid() && t.Has(b.prev) && !t.Has(b.id) && t.Has(h)
    ensures var t' := Grow(t, b, at);
      && t'.Valid() && t'.Has(h) && t'.nodes[h] == t.nodes[h]
      && (t'.Ancestor(a, h) <==> t.Ancestor(a, h))
      && (Connects(rules, disk, t', h) <==> Connects(rules, disk, t, h))
  {
    hide Replay;
    GrowKeeps(t, b, at, h);
    GrowAllowed(rules, t, b, at, t.genesis, h);
  }

  lemma {:induction false} IntermediateTrust(t: Tree, best: Hash, h: Hash)
    requires t.Valid() && t.Has(best) && t.Has(h) && t.nodes[h].trust > t.nodes[best].trust
    ensures t.nodes[Intermediate(t, best, h)].trust > t.nodes[best].trust
    decreases t.nodes[h].height
  {
    if t.nodes[h].prev.Some? && t.nodes[t.Parent(h)].trust > t.nodes[best].trust {
      IntermediateTrust(t, best, t.Parent(h));
    }
  }

  // From a best block that connects, the branch to mid connects exactly if all of
  // it from genesis does.
  lemma ConnectsFromFork(rules: Rules, disk: Disk, t: Tree, best: Hash, f: Hash, mid: Hash)
    requires t.Valid() && t.Has(best) && t.Has(f) && t.Has(mid) && Connects(rules, disk, t, best)
    requires t.Ancestor(f, best) && t.Ancestor(f, mid)
    ensures ConnectsFrom(rules, disk, t, f, mid) <==> Connects(rules, disk, t, mid)
  {
    hide ConnectsFrom;
    GenesisIsAncestor(t, f);
    ConnectsSplit(rules, disk, t, t.genesis, f, best);
    ConnectsSplit(rules, disk, t, t.genesis, f, mid);
  }

  // No other block on the way to h has more trust than the best block and connects.
  ghost predicate NoneBelow(rules: Rules, disk: Disk, t: Tree, sync: Hash, best: Hash, h: Hash)
    requires t.Valid() && t.Has(best) && t.Has(h)
  {
    forall x | t.Has(x) && x != h && t.Ancestor(sync, x) && Connects(rules, disk, t, x) :: t.nodes[x].trust <= t.nodes[best].trust
  }

  /** In a tree whose best block has the most trust but for h, SetBestChain takes h
      exactly if h connects, and then has no block to postpone. */
  lemma MovesIfConnects(rules: Rules, disk: Disk, t: Tree, sync: Hash, best: Hash, h: Hash)
    requires t.Valid() && t.Has(best) && t.Has(h) && t.Ancestor(sync, best) && Connects(rules, disk, t, best)
    requires t.nodes[h].trust > t.nodes[best].trust && NoneBelow(rules, disk, t, sync, best, h)
    ensures Moves(rules, disk, t, sync, best, h) <==> t.Ancestor(sync, h) && Connects(rules, disk, t, h)
    ensures Moves(rules, disk, t, sync, best, h) ==> Reaches(rules, disk, t, best, h)
  {
    hide ConnectsFrom, Connects;
    var f, mid := ForkOf(t, best, h), Intermediate(t, best, h);
    ForkOfIsFork(t, best, h);
    SameForkOf(t, best, h);
    IntermediateTrust(t, best, h);
    ConnectsFromFork(rules, disk, t, best, f, mid);
    ConnectsFromFork(rules, disk, t, best, f, h);
    if t.Ancestor(sync, f) {
      AncestorTrans(t, sync, f, h);
      AncestorTrans(t, sync, f, mid);
      ConnectsSplitHere(rules, disk, t, mid, h);
    }
  }

  lemma ConnectsSplitHere(rules: Rules, disk: Disk, t: Tree, mid: Hash, h: Hash)
    requires t.Valid() && t.Has(mid) && t.Has(h) && t.Ancestor(mid, h)
    ensures Connects(rules, disk, t, h) ==> Connects(rules, disk, t, mid)
  {
    hide ConnectsFrom;
    GenesisIsAncestor(t, mid);
    ConnectsSplit(rules, disk, t, t.genesis, mid, h);
  }

  // The tree grows by b and the best block is chosen.
  lemma LeadingGrows(rules: Rules, disk: Disk, v: View, b: Block, at: FilePos, mid: Hash)
    requires Leading(rules, disk, v) && v.tree.Has(b.prev) && !v.tree.Has(b.id)
    requires Grow(v.tree, b, at).Valid()
    requires mid == if Overtakes(rules, disk, v, Grow(v.tree, b, at), b.id) then b.id else v.tip
    ensures Leading(rules, disk, View(Grow(v.tree, b, at), v.sync, mid))
    ensures Reaches(rules, disk, Grow(v.tree, b, at), v.tip, mid)
  {
    hide ConnectsFrom, Connects, Moves, Reaches;
    var t := Grow(v.tree, b, at);
    forall h | v.tree.Has(h)
      ensures t.Has(h) && t.nodes[h] == v.tree.nodes[h]
      ensures t.Ancestor(v.sync, h) <==> v.tree.Ancestor(v.sync, h)
      ensures Connects(rules, disk, t, h) <==> Connects(rules, disk, v.tree, h)
    {
      GrowConnects(rules, disk, v.tree, b, at, v.sync, h);
    }
    if t.nodes[b.id].trust > t.nodes[v.tip].trust {
      MovesIfConnects(rules, disk, t, v.sync, v.tip, b.id);
    }
    StaysReached(rules, disk, t, v.tip);
  }

  lemma StaysReached(rules: Rules, disk: Disk, t: Tree, best: Hash)
    requires t.Valid() && t.Has(best)
    ensures Reaches(rules, disk, t, best, best)
  {}

  // A later checkpoint on the same best chain leaves fewer blocks to compare with.
  lemma LeadingMoves(rules: Rules, disk: Disk, v: View, v': View)
    requires Leading(rules, disk, v) && v'.tree == v.tree && v'.tip == v.tip
    requires Anchored(v') && v'.tree.Ancestor(v.sync, v'.sync)
    ensures Leading(rules, disk, v')
  {
    hide Connects;
    forall h | v.tree.Has(h) && v.tree.Ancestor(v'.sync, h) ensures v.tree.Ancestor(v.sync, h) {
      AncestorTrans(v.tree, v.sync, v'.sync, h);
    }
  }

  lemma LeadingStep(testNet: bool, rules: Rules, disk: Disk, e: Event, v: View, mid: Hash, v': View)
    requires Leading(rules, disk, v) && (e.Arrival? ==> e.rules == rules)
    requires Step(v, v') && IndexesOne(testNet, e, v, v') && Chooses(testNet, disk, e, v, mid) && v'.tip == mid
    requires Shelved(disk, e, v)
    ensures Leading(rules, disk, v') && Smooth(disk, e, v, mid, v')
  {
    hide Leading, Overtakes, Reaches, Shelved, Grow;
    assert Anchored(v) by {
      LeadingIsAnchored(rules, disk, v);
    }
    if e.Arrival? && Takes(testNet, v, e.accept, e.block) {
      LeadingGrows(rules, disk, v, e.block, e.at, mid);
    }
    StaysReached(e.rules, disk, v'.tree, mid);
    LeadingMoves(rules, disk, View(v'.tree, v.sync, mid), v');
  }

  lemma LeadingIsAnchored(rules: Rules, disk: Disk, v: View)
    requires Leading(rules, disk, v)
    ensures Anchored(v)
  {}

  // --- runs

  // Every block is judged by the same rules, arriving blocks are on disk, and no
  // checkpoint takes the node off its best chain.
  ghost predicate Orderly(rules: Rules, disk: Disk, events: seq<Event>, run: seq<View>, mids: seq<Hash>, n: nat)
    requires n <= |events| && n <= |mids| && n < |run|
  {
    forall i | 0 <= i < n :: OrderlyAt(rules, disk, events[i], run[i], mids[i], run[i + 1])
  }

  ghost predicate OrderlyAt(rules: Rules, disk: Disk, e: Event, v: View, mid: Hash, v': View) {
    (e.Arrival? ==> e.rules == rules) && Shelved(disk, e, v) && v'.tip == mid
  }

  lemma {:induction false} RunStep(run: seq<View>, i: nat)
    requires IsRun(run) && i + 1 < |run|
    ensures Anchored(run[i]) && Step(run[i], run[i + 1])
  {
    hide Step, Anchored;
    var n := |run|;
    if i + 2 < n {
      RunStep(run[..n - 1], i);
    }
  }

  /** In every orderly run without repeated ids, in whatever order and on whatever
      branches blocks arrive, the node ends on a block that connects and that no
      other block that connects exceeds in trust.  On the way no postponed block
      ever fails, so the index stays the replay of the best chain. */
  lemma {:induction false} FollowsMostTrust(testNet: bool, rules: Rules, disk: Disk, events: seq<Event>, run: seq<View>, mids: seq<Hash>, n: nat)
    requires n <= |events| && n <= |mids| && n < |run| && IsRun(run)
    requires AllIndexed(testNet, events, run, n) && AllChosen(testNet, disk, events, run, mids, n)
    requires Leading(rules, disk, run[0]) && Orderly(rules, disk, events, run, mids, n) && AllNewIds(events, run, n)
    ensures Leading(rules, disk, run[n]) && AllSmooth(disk, events, run, mids, n)
  {
    hide Leading, IsRun, Step, IndexesOne, ChoosesOne, Shelved, Smooth, NewIds, Anchored;
    if n > 0 {
      var k := n - 1;
      FollowsMostTrust(testNet, rules, disk, events, run, mids, k);
      RunStep(run, k);
      assert OrderlyAt(rules, disk, events[k], run[k], mids[k], run[k + 1]);
      assert IndexesOne(testNet, events[k], run[k], run[k + 1]);
      assert ChoosesOne(testNet, disk, events[k], run[k], mids[k]);
      LeadingOne(testNet, rules, disk, events[k], run[k], mids[k], run[k + 1]);
    }
  }

  lemma LeadingOne(testNet: bool, rules: Rules, disk: Disk, e: Event, v: View, mid: Hash, v': View)
    requires Leading(rules, disk, v) && OrderlyAt(rules, disk, e, v, mid, v')
    requires Anchored(v) && Step(v, v') && IndexesOne(testNet, e, v, v') && ChoosesOne(testNet, disk, e, v, mid)
    ensures Leading(rules, disk, v') && Smooth(disk, e, v, mid, v')
  {
    hide Leading, Smooth, Chooses, Step;
    LeadingStep(testNet, rules, disk, e, v, mid, v');
  }
}

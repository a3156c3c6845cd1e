/**
 Synchronized checkpoints: a block, announced by message, that the best chain
 must never leave.
 */
module Checkpoints {
  import opened Transactions
  import opened MarkedOutputs
  import opened Ledger
  import opened Supply
  import opened BlockTree
  import opened BlockConnection
  import opened ChainState

  // The trace-back loops: walk from h to a given height, or not at all.
  method TraceBack(t: Tree, h: Hash, height: nat) returns (x: Hash)
    requires t.Valid() && t.Has(h)
    ensures t.Has(x) && t.Ancestor(x, h)
    ensures t.Height(x) == if t.Height(h) > height then height else t.Height(h)
  {
    x := h;
    PathShape(t, h);
    while t.Height(x) > height
      invariant t.Has(x) && t.Ancestor(x, h)
      invariant t.Height(x) == t.Height(h) || (t.Height(h) >= t.Height(x) >= height)
      decreases t.Height(x)
    {
      ParentIsAncestor(t, x);
      AncestorTrans(t, t.Parent(x), x, h);
      x := t.Parent(x);
    }
  }

  // Comparing with the block found at the other's height decides ancestry.
  lemma TraceBackDecides(t: Tree, a: Hash, h: Hash, x: Hash)
    requires t.Valid() && t.Has(a) && t.Has(h) && t.Has(x)
    requires t.Ancestor(x, h) && t.Height(a) <= t.Height(h) && t.Height(x) == t.Height(a)
    ensures x == a <==> t.Ancestor(a, h)
  {
    AncestorAt(t, a, h);
    AncestorAt(t, x, h);
  }

  lemma LowerIsNotDescendant(t: Tree, a: Hash, h: Hash)
    requires t.Valid() && t.Has(a) && t.Has(h) && t.Height(h) <= t.Height(a) && a != h
    ensures !t.Ancestor(a, h)
  {
    AncestorAt(t, a, h);
  }

  // --- runs

  // What a step may change, as far as the checkpoint is concerned
  datatype View = View(tree: Tree, sync: Hash, tip: Hash)

  ghost predicate Anchored(v: View) {
    && v.tree.Valid() && v.tree.Has(v.sync) && v.tree.Has(v.tip)
    && v.tree.Ancestor(v.sync, v.tip)
  }

  // The tree only grows and the checkpoint stays or moves to a descendant.
  ghost predicate Step(v: View, v': View)
    requires Anchored(v)
  {
    && Anchored(v')
    && Extends(v.tree, v'.tree)
    && v'.tree.Ancestor(v.sync, v'.sync)
  }

  ghost predicate IsRun(run: seq<View>)
    ensures IsRun(run) ==> |run| > 0 && Anchored(run[|run| - 1])
  {
    var n := |run|;
    n > 0 && if n == 1 then Anchored(run[0]) else IsRun(run[..n - 1]) && Step(run[n - 2], run[n - 1])
  }

  // What reaches the node; the checks that only reject may answer differently
  // each time.
  datatype Event =
    | Arrival(rules: Rules, accept: bool, block: Block, at: FilePos)
    | Message(rules: Rules, hash: Hash)

  // The block is new, its parent is known, its own checks pass, and off the test
  // network it builds on the checkpoint or on a descendant of it.
  ghost predicate Takes(testNet: bool, v: View, accept: bool, b: Block)
    requires Anchored(v)
  {
    && !v.tree.Has(b.id) && v.tree.Has(b.prev) && accept
    && (testNet || v.tree.Ancestor(v.sync, b.prev))
  }

  // The tree after an event: a block that is taken is in it, and nothing else is new.
  ghost function Indexed(testNet: bool, e: Event, v: View): Tree
    requires Anchored(v)
  {
    if e.Arrival? && Takes(testNet, v, e.accept, e.block) then Grow(v.tree, e.block, e.at) else v.tree
  }

  // h is known and builds on the checkpoint.
  ghost predicate Follows(v: View, h: Hash)
    requires Anchored(v)
  {
    v.tree.Has(h) && h != v.sync && v.tree.Ancestor(v.sync, h)
  }

  // h is in the best chain, or becomes the best block.
  ghost predicate CanLead(rules: Rules, disk: Disk, v: View, h: Hash)
    requires Anchored(v) && v.tree.Has(h)
  {
    v.tree.Ancestor(h, v.tip) || Moves(rules, disk, v.tree, v.sync, v.tip, h)
  }

  // ... where transaction ids may repeat: the old branch also has to disconnect.
  ghost predicate CanLeadFrom(rules: Rules, disk: Disk, index: Index, v: View, h: Hash)
    requires Anchored(v) && v.tree.Has(h)
  {
    || v.tree.Ancestor(h, v.tip)
    || (Moves(rules, disk, v.tree, v.sync, v.tip, h) && Undone(v.tree, index, ForkOf(v.tree, v.tip, h), v.tip).Some?)
  }

  // With more trust and a branch that connects, h replaces the best block of v.
  ghost predicate Overtakes(rules: Rules, disk: Disk, v: View, t: Tree, h: Hash)
    requires t.Valid() && t.Has(v.tip) && t.Has(h)
  {
    t.nodes[h].trust > t.nodes[v.tip].trust && Moves(rules, disk, t, v.sync, v.tip, h)
  }

  // An arriving block is on disk.
  ghost predicate Shelved(disk: Disk, e: Event, v: View) {
    e.Arrival? && v.tree.Has(e.block.prev) ==> OnDisk(disk, e.block, e.at)
  }

  // mid is the best block once the event is in the tree: a block that was taken, if
  // it overtakes the best block, and the best block of v in every other case.
  ghost predicate Chooses(testNet: bool, disk: Disk, e: Event, v: View, mid: Hash)
    requires Anchored(v)
  {
    var t := Indexed(testNet, e, v);
    t.Valid() && t.Has(v.tip) &&
    if e.Arrival? && Takes(testNet, v, e.accept, e.block) && Overtakes(e.rules, disk, v, t, e.block.id)
    then mid == e.block.id else mid == v.tip
  }

  // The event moves the best block only to blocks that connect all the way, by
  // way of mid if a block arrives, and an arriving block is on disk.
  ghost predicate Smooth(disk: Disk, e: Event, v: View, mid: Hash, v': View) {
    && v'.tree.Valid() && v'.tree.Has(v.tip) && v'.tree.Has(mid) && v'.tree.Has(v'.tip)
    && match e
       case Message(rules, _) => Reaches(rules, disk, v'.tree, v.tip, v'.tip)
       case Arrival(rules, _, b, at) =>
         && Shelved(disk, e, v)
         && Reaches(rules, disk, v'.tree, v.tip, mid)
         && Reaches(rules, disk, v'.tree, mid, v'.tip)
  }

  // An arriving block repeats no transaction id of its ancestors.
  ghost predicate NewIds(e: Event, v: View) {
    e.Arrival? && v.tree.Has(e.block.prev) ==>
      v.tree.Valid() && IdsOf(v.tree.Chain(e.block.prev)) !! e.block.Ids()
  }

  // The checkpoint of the one moment is behind checkpoint and best block of the other.
  ghost predicate Leads(v: View, v': View) {
    && Anchored(v')
    && v'.tree.Ancestor(v.sync, v'.sync)
    && v'.tree.Ancestor(v.sync, v'.tip)
  }

  ghost predicate AllLead(run: seq<View>) {
    forall i, j | 0 <= i <= j < |run| :: Leads(run[i], run[j])
  }

  ghost predicate AllSmooth(disk: Disk, events: seq<Event>, run: seq<View>, mids: seq<Hash>, n: nat)
    requires n <= |events| && n <= |mids| && n < |run|
  {
    forall i | 0 <= i < n :: Smooth(disk, events[i], run[i], mids[i], run[i + 1])
  }

  ghost predicate AllNewIds(events: seq<Event>, run: seq<View>, n: nat)
    requires n <= |events| && n <= |run|
  {
    forall i | 0 <= i < n :: NewIds(events[i], run[i])
  }

  ghost predicate IndexesOne(testNet: bool, e: Event, v: View, v': View) {
    Anchored(v) && v'.tree == Indexed(testNet, e, v)
  }

  // Each event puts into the tree what it takes and nothing else.
  ghost predicate AllIndexed(testNet: bool, events: seq<Event>, run: seq<View>, n: nat)
    requires n <= |events| && n < |run|
  {
    forall i | 0 <= i < n :: IndexesOne(testNet, events[i], run[i], run[i + 1])
  }

  // One of the first n events was the arrival of h, and it was taken.
  ghost predicate Arrived(testNet: bool, events: seq<Event>, run: seq<View>, n: nat, h: Hash)
    requires n <= |events| && n <= |run|
  {
    exists i :: 0 <= i < n && TakesAs(testNet, events[i], run[i], h)
  }

  ghost predicate TakesAs(testNet: bool, e: Event, v: View, h: Hash) {
    Anchored(v) && e.Arrival? && e.block.id == h && Takes(testNet, v, e.accept, e.block)
  }

  ghost predicate ChoosesOne(testNet: bool, disk: Disk, e: Event, v: View, mid: Hash) {
    Anchored(v) && Chooses(testNet, disk, e, v, mid)
  }

  // As long as everything that became the best block connected and no id was
  // repeated, the next event chooses as it should.
  ghost predicate AllChosen(testNet: bool, disk: Disk, events: seq<Event>, run: seq<View>, mids: seq<Hash>, n: nat)
    requires n <= |events| && n <= |mids| && n < |run|
  {
    forall k | 0 <= k < n ::
      AllSmooth(disk, events, run, mids, k) && AllNewIds(events, run, k + 1) && Shelved(disk, events[k], run[k]) ==>
        ChoosesOne(testNet, disk, events[k], run[k], mids[k])
  }

  /** The tree a run ends with holds the blocks it began with and those that were
      taken on the way. */
  lemma {:induction false} WhatIsIndexed(testNet: bool, events: seq<Event>, run: seq<View>, n: nat, h: Hash)
    requires n <= |events| && n < |run| && AllIndexed(testNet, events, run, n)
    ensures run[n].tree.Has(h) <==> run[0].tree.Has(h) || Arrived(testNet, events, run, n, h)
  {
    hide Anchored;
    if n > 0 {
      WhatIsIndexed(testNet, events, run, n - 1, h);
      assert IndexesOne(testNet, events[n - 1], run[n - 1], run[n - 1 + 1]);
      if TakesAs(testNet, events[n - 1], run[n - 1], h) {
        assert Arrived(testNet, events, run, n, h);
      }
      if Arrived(testNet, events, run, n - 1, h) {
        var i :| 0 <= i < n - 1 && TakesAs(testNet, events[i], run[i], h);
        assert Arrived(testNet, events, run, n, h);
      }
    }
  }

  lemma {:induction false} AllIsIndexed(testNet: bool, events: seq<Event>, run: seq<View>, n: nat)
    requires n <= |events| && n < |run| && AllIndexed(testNet, events, run, n)
    ensures forall h :: run[n].tree.Has(h) <==> run[0].tree.Has(h) || Arrived(testNet, events, run, n, h)
  {
    hide AllIndexed, Arrived;
    forall h ensures run[n].tree.Has(h) <==> run[0].tree.Has(h) || Arrived(testNet, events, run, n, h) {
      WhatIsIndexed(testNet, events, run, n, h);
    }
  }

  lemma SmoothPrefix(disk: Disk, events: seq<Event>, run: seq<View>, mids: seq<Hash>, v: View, mid: Hash, k: nat)
    requires |mids| <= |events| && k <= |mids| && |run| == |mids| + 1
    ensures AllSmooth(disk, events, run + [v], mids + [mid], k) ==> AllSmooth(disk, events, run, mids, k)
    ensures k < |events| && AllNewIds(events, run + [v], k + 1) ==> AllNewIds(events, run, k + 1)
  {
    hide Smooth, NewIds;
    var run', mids' := run + [v], mids + [mid];
    if AllSmooth(disk, events, run', mids', k) {
      forall i | 0 <= i < k ensures Smooth(disk, events[i], run[i], mids[i], run[i + 1]) {
        assert Smooth(disk, events[i], run'[i], mids'[i], run'[i + 1]);
      }
    }
    if k < |events| && AllNewIds(events, run', k + 1) {
      forall i | 0 <= i <= k ensures NewIds(events[i], run[i]) {
        assert NewIds(events[i], run'[i]);
      }
    }
  }

  lemma IndexedNext(testNet: bool, events: seq<Event>, run: seq<View>, v: View, n: nat)
    requires n < |events| && |run| == n + 1
    requires AllIndexed(testNet, events, run, n) && IndexesOne(testNet, events[n], run[n], v)
    ensures AllIndexed(testNet, events, run + [v], n + 1)
  {
    hide IndexesOne;
    var run' := run + [v];
    forall i | 0 <= i < n + 1 ensures IndexesOne(testNet, events[i], run'[i], run'[i + 1]) {
      if i < n {
        assert IndexesOne(testNet, events[i], run[i], run[i + 1]);
      }
    }
  }

  lemma ChosenNext(testNet: bool, disk: Disk, events: seq<Event>, run: seq<View>, mids: seq<Hash>, v: View, mid: Hash, n: nat)
    requires n < |events| && |mids| == n && |run| == n + 1
    requires AllChosen(testNet, disk, events, run, mids, n)
    requires AllSmooth(disk, events, run, mids, n) && AllNewIds(events, run, n + 1) && Shelved(disk, events[n], run[n]) ==>
      ChoosesOne(testNet, disk, events[n], run[n], mid)
    ensures AllChosen(testNet, disk, events, run + [v], mids + [mid], n + 1)
  {
    hide AllSmooth, AllNewIds, Shelved, ChoosesOne;
    var run', mids' := run + [v], mids + [mid];
    forall k | 0 <= k < n + 1 && AllSmooth(disk, events, run', mids', k) && AllNewIds(events, run', k + 1) && Shelved(disk, events[k], run'[k])
      ensures ChoosesOne(testNet, disk, events[k], run'[k], mids'[k])
    {
      SmoothPrefix(disk, events, run, mids, v, mid, k);
    }
  }

  /** Over a whole run the checkpoint of any moment is an ancestor of the
      checkpoint, and so of the best block, that the run ends with. */
  lemma {:induction false} CheckpointOnlyDescends(run: seq<View>, i: nat)
    requires IsRun(run) && i < |run|
    ensures Leads(run[i], run[|run| - 1])
  {
    var n := |run|;
    var end := run[n - 1];
    if i == n - 1 {
      PathShape(end.tree, end.sync);
    } else {
      CheckpointOnlyDescends(run[..n - 1], i);
      ExtendsKeeps(run[n - 2].tree, end.tree, run[n - 2].sync);
      AncestorTrans(end.tree, run[i].sync, run[n - 2].sync, end.sync);
    }
    AncestorTrans(end.tree, run[i].sync, end.sync, end.tip);
  }

  lemma StepTrans(v: View, v': View, v'': View)
    requires Anchored(v) && Step(v, v') && Step(v', v'')
    ensures Step(v, v'')
  {
    ExtendsKeeps(v'.tree, v''.tree, v'.sync);
    AncestorTrans(v''.tree, v.sync, v'.sync, v''.sync);
  }

  lemma StayStep(v: View)
    requires Anchored(v)
    ensures Step(v, v)
  {
    PathShape(v.tree, v.sync);
  }

  // A new block above the checkpoint, whatever the best block is afterwards
  lemma GrowStep(v: View, b: Block, at: FilePos, tip: Hash)
    requires Anchored(v) && v.tree.Has(b.prev) && !v.tree.Has(b.id)
    requires var t := Grow(v.tree, b, at); t.Valid() && t.Has(tip) && t.Ancestor(v.sync, tip)
    ensures Step(v, View(Grow(v.tree, b, at), v.sync, tip)) && Grow(v.tree, b, at).Has(b.id)
    ensures v.tree.Ancestor(v.sync, b.prev) ==> Grow(v.tree, b, at).Ancestor(v.sync, b.id)
  {
    var t := Grow(v.tree, b, at);
    GrowKeeps(v.tree, b, at, v.sync);
    GrowKeeps(v.tree, b, at, b.prev);
    PathShape(v.tree, v.sync);
    assert t.Parent(b.id) == b.prev;
  }

  class SyncCheckpoint {
    const chain: Chain
    const testNet: bool
    var pending: Hash
    var invalid: Hash

    constructor (chain: Chain, testNet: bool)
      ensures this.chain == chain && this.testNet == testNet && pending == 0 && invalid == 0
    {
      this.chain, this.testNet, pending, invalid := chain, testNet, 0, 0;
    }

    /** Only a strict descendant of the current checkpoint is accepted; a block
        on another branch is remembered as invalid, an ancestor is ignored. */
    method ValidateSyncCheckpoint(h: Hash) returns (ok: bool)
      requires chain.Steady()
      modifies this`invalid
      ensures chain.tree.Has(chain.sync)
      ensures ok <==> chain.tree.Has(h) && h != chain.sync && chain.tree.Ancestor(chain.sync, h)
      ensures invalid ==
        if chain.tree.Has(h) && !chain.tree.Ancestor(chain.sync, h) && !chain.tree.Ancestor(h, chain.sync)
        then h else old(invalid)
    {
      var t, sync := chain.tree, chain.sync;
      AncestorAt(t, sync, chain.tip);
      if !t.Has(h) {
        return false;
      }
      PathShape(t, sync);
      if t.Height(h) <= t.Height(sync) {
        var x := TraceBack(t, sync, t.Height(h));
        TraceBackDecides(t, h, sync, x);
        if h != sync {
          LowerIsNotDescendant(t, sync, h);
        }
        if x != h {
          invalid := h;
        }
        return false;
      }
      var x := TraceBack(t, h, t.Height(sync));
      TraceBackDecides(t, sync, h, x);
      LowerIsNotDescendant(t, h, sync);
      if x != sync {
        invalid := h;
        return false;
      }
      return true;
    }

    /** Off the test network a block above the checkpoint passes exactly if its
        parent is the checkpoint or descends from it. */
    method CheckSync(hash: Hash, prev: Hash) returns (ok: bool)
      requires chain.Steady() && chain.tree.Has(prev)
      ensures chain.tree.Has(chain.sync)
      ensures testNet ==> ok
      ensures !testNet ==> var above := chain.tree.Height(prev) + 1 - chain.tree.Height(chain.sync);
        ok <==> if above > 0 then chain.tree.Ancestor(chain.sync, prev)
                else if above == 0 then hash == chain.sync
                else chain.tree.Has(hash)
    {
      var t, sync := chain.tree, chain.sync;
      AncestorAt(t, sync, chain.tip);
      if testNet {
        return true;
      }
      var height := t.Height(prev) + 1;
      if height > t.Height(sync) {
        var x := TraceBack(t, prev, t.Height(sync));
        TraceBackDecides(t, sync, prev, x);
        if t.Height(x) < t.Height(sync) || x != sync {
          return false;
        }
      }
      if height == t.Height(sync) && hash != sync {
        return false;
      }
      if height < t.Height(sync) && !t.Has(hash) {
        return false;
      }
      return true;
    }

    ghost function Now(): View
      reads this, chain
    {
      View(chain.tree, chain.sync, chain.tip)
    }

    // Brings a validated checkpoint into the main chain and makes it current.
    method MoveTo(rules: Rules, h: Hash) returns (ok: bool)
      requires chain.Steady() && chain.tree.Has(h) && chain.tree.Ancestor(chain.sync, h)
      modifies this`invalid, chain`next, chain`stats, chain`tip, chain`sync, chain.txdb
      ensures chain.Steady()
      ensures ok ==> chain.sync == h && chain.tip == if old(chain.IsInMainChain(h)) then old(chain.tip) else h
      ensures old(chain.IsInMainChain(h)) ==> ok
      ensures !ok ==> chain.sync == old(chain.sync) && chain.tip == old(chain.tip) && invalid == h
      ensures Anchored(old(Now())) && Step(old(Now()), Now())
      ensures old(chain.Valid()) ==> (ok <==> CanLead(rules, chain.disk, old(Now()), h))
      ensures old(chain.Accounted()) ==> (ok <==> CanLeadFrom(rules, chain.disk, old(chain.txdb.index), old(Now()), h))
      ensures old(chain.Valid()) && Reaches(rules, chain.disk, chain.tree, old(chain.tip), chain.tip) ==> chain.Valid()
      ensures old(chain.Accounted()) && Reaches(rules, chain.disk, chain.tree, old(chain.tip), chain.tip) ==> chain.Accounted()
    {
      hide ConnectsFrom, HoldsReplay, Connected, Held, AllStored, Links, LinksBelow, Sound, Moves, Undone;
      AncestorAt(chain.tree, chain.sync, chain.tip);
      PathShape(chain.tree, chain.sync);
      PathShape(chain.tree, h);
      MainChainIsAncestry(chain, h);
      if !chain.IsInMainChain(h) {
        ok := chain.SetBestChain(rules, h);
        if !ok {
          invalid := h;
          return false;
        }
      }
      chain.sync := h;
      return true;
    }

    /** A signed message moves the checkpoint to a strict descendant that is in the
        best chain or can become the best block, and not at all otherwise. */
    method ProcessSyncCheckpoint(rules: Rules, h: Hash) returns (ok: bool)
      requires chain.Steady()
      modifies this`pending, this`invalid, chain`next, chain`stats, chain`tip, chain`sync, chain.txdb
      ensures chain.Steady()
      ensures Anchored(old(Now())) && Step(old(Now()), Now())
      ensures ok ==> chain.sync == h && h != old(chain.sync) && pending == 0
      ensures !ok ==> chain.sync == old(chain.sync) && chain.tip == old(chain.tip)
      ensures !ok ==> pending == if chain.tree.Has(h) then old(pending) else h
      ensures chain.tree == old(chain.tree)
      ensures ok ==> Follows(old(Now()), h) && chain.tip == if old(chain.IsInMainChain(h)) then old(chain.tip) else h
      ensures Follows(old(Now()), h) && old(chain.IsInMainChain(h)) ==> ok
      ensures old(chain.Valid()) ==> (ok <==> Follows(old(Now()), h) && CanLead(rules, chain.disk, old(Now()), h))
      ensures old(chain.Accounted()) ==>
        (ok <==> Follows(old(Now()), h) && CanLeadFrom(rules, chain.disk, old(chain.txdb.index), old(Now()), h))
      ensures old(chain.Valid()) && Reaches(rules, chain.disk, chain.tree, old(chain.tip), chain.tip) ==> chain.Valid()
      ensures old(chain.Accounted()) && Reaches(rules, chain.disk, chain.tree, old(chain.tip), chain.tip) ==> chain.Accounted()
    {
      hide ConnectsFrom, HoldsReplay, Connected, Held, AllStored, Links, LinksBelow, Sound, CanLead, CanLeadFrom, Chain.Valid, Chain.Accounted;
      AncestorAt(chain.tree, chain.sync, chain.tip);
      StayStep(Now());
      if !chain.tree.Has(h) {
        pending := h;
        return false;
      }
      ok := ValidateSyncCheckpoint(h);
      if !ok {
        return false;
      }
      ok := MoveTo(rules, h);
      if ok {
        pending := 0;
      }
    }

    // The block is known and no strict descendant of the checkpoint.
    ghost predicate Refused(h: Hash)
      reads this, chain
      requires chain.Steady()
    {
      chain.tree.Has(h) && (h == chain.sync || !chain.tree.Ancestor(chain.sync, h))
    }

    // A refused checkpoint is forgotten; one that is unknown, or that does not
    // become the best block, stays pending.
    method AcceptPendingSyncCheckpoint(rules: Rules) returns (ok: bool)
      requires chain.Steady()
      modifies this`pending, this`invalid, chain`next, chain`stats, chain`tip, chain`sync, chain.txdb
      ensures chain.Steady()
      ensures Anchored(old(Now())) && Step(old(Now()), Now()) && chain.tree == old(chain.tree)
      ensures ok ==> chain.sync == old(pending) && chain.sync != old(chain.sync) && pending == 0
      ensures !ok ==> chain.sync == old(chain.sync) && chain.tip == old(chain.tip)
      ensures !ok ==> pending == if Refused(old(pending)) then 0 else old(pending)
      ensures ok ==> old(pending) != 0 && Follows(old(Now()), chain.sync)
      ensures ok ==> chain.tip == if old(chain.IsInMainChain(pending)) then old(chain.tip) else chain.sync
      ensures old(pending) != 0 && Follows(old(Now()), old(pending)) && old(chain.IsInMainChain(pending)) ==> ok
      ensures old(chain.Valid()) ==>
        (ok <==> old(pending) != 0 && Follows(old(Now()), old(pending)) && CanLead(rules, chain.disk, old(Now()), old(pending)))
      ensures old(chain.Accounted()) ==>
        (ok <==> && old(pending) != 0 && Follows(old(Now()), old(pending))
                 && CanLeadFrom(rules, chain.disk, old(chain.txdb.index), old(Now()), old(pending)))
      ensures old(chain.Valid()) && Reaches(rules, chain.disk, chain.tree, old(chain.tip), chain.tip) ==> chain.Valid()
      ensures old(chain.Accounted()) && Reaches(rules, chain.disk, chain.tree, old(chain.tip), chain.tip) ==> chain.Accounted()
    {
      hide ConnectsFrom, HoldsReplay, Connected, Held, AllStored, Links, LinksBelow, Sound, CanLead, CanLeadFrom, Chain.Valid, Chain.Accounted;
      AncestorAt(chain.tree, chain.sync, chain.tip);
      StayStep(Now());
      if pending == 0 || !chain.tree.Has(pending) {
        return false;
      }
      ok := ValidateSyncCheckpoint(pending);
      if !ok {
        pending := 0;
        return false;
      }
      ok := MoveTo(rules, pending);
      if ok {
        pending := 0;
      }
    }

    // AcceptBlock up to the point where the block is indexed; accept stands for
    // its checks on target, time and finality.
    method IndexBlock(rules: Rules, accept: bool, b: Block, at: FilePos) returns (ok: bool)
      requires chain.Steady()
      modifies chain`tree, chain`next, chain`stats, chain`tip, chain.txdb
      ensures chain.Steady()
      ensures Anchored(old(Now())) && Step(old(Now()), Now()) && chain.sync == old(chain.sync)
      ensures chain.tree != old(chain.tree) ==> chain.tree.Has(b.id)
      ensures !testNet && chain.tree != old(chain.tree) ==> chain.tree.Ancestor(chain.sync, b.id)
      ensures chain.tip == old(chain.tip) || chain.tip == b.id
      ensures !Takes(testNet, old(Now()), accept, b) ==> !ok && unchanged(chain) && unchanged(chain.txdb)
      ensures Takes(testNet, old(Now()), accept, b) ==>
        && chain.tree == Grow(old(chain.tree), b, at)
        && (ok <==> (chain.tree.nodes[b.id].trust > chain.tree.nodes[old(chain.tip)].trust ==> chain.tip == b.id))
        && (chain.tip != b.id ==> chain.next == old(chain.next) && chain.txdb.index == old(chain.txdb.index))
      ensures Takes(testNet, old(Now()), accept, b) && old(chain.Valid() && chain.Fits(b, at)) ==>
        (chain.tip == b.id <==> Overtakes(rules, chain.disk, old(Now()), chain.tree, b.id))
      ensures Takes(testNet, old(Now()), accept, b) && old(chain.Accounted()) && OnDisk(chain.disk, b, at) ==>
        (chain.tip == b.id <==>
           && Overtakes(rules, chain.disk, old(Now()), chain.tree, b.id)
           && Undone(chain.tree, old(chain.txdb.index), ForkOf(chain.tree, old(chain.tip), b.id), old(chain.tip)).Some?)
      ensures old(chain.Valid() && (chain.tree.Has(b.prev) ==> chain.Fits(b, at))) && Reaches(rules, chain.disk, chain.tree, old(chain.tip), chain.tip) ==> chain.Valid()
      ensures old(chain.Accounted() && (chain.tree.Has(b.prev) ==> OnDisk(chain.disk, b, at))) && Reaches(rules, chain.disk, chain.tree, old(chain.tip), chain.tip) ==> chain.Accounted()
    {
      hide ConnectsFrom, HoldsReplay, Connected, Held, AllStored, Links, LinksBelow, Sound, Moves, Grow, Step, Undone;
      AncestorAt(chain.tree, chain.sync, chain.tip);
      StayStep(Now());
      if chain.tree.Has(b.id) || !chain.tree.Has(b.prev) || !accept {
        return false;
      }
      ok := CheckSync(b.id, b.prev);
      AncestorAt(chain.tree, chain.sync, b.prev);
      if !ok {
        return false;
      }
      ghost var v := Now();
      ok := chain.AddToBlockIndex(rules, b, at);
      GrowStep(v, b, at, chain.tip);
    }

    /** Accepting a block, with the look at the pending checkpoint at its end; mid is
        the best block between the two. */
    method AcceptBlock(rules: Rules, accept: bool, b: Block, at: FilePos) returns (ok: bool, ghost mid: Hash)
      requires chain.Steady()
      modifies this`pending, this`invalid, chain`tree, chain`next, chain`stats, chain`tip, chain`sync, chain.txdb
      ensures chain.Steady()
      ensures Anchored(old(Now())) && Step(old(Now()), Now())
      ensures chain.sync != old(chain.sync) ==> ok && chain.sync == old(pending)
      ensures chain.tree != old(chain.tree) ==> chain.tree.Has(b.id)
      ensures !testNet && chain.tree != old(chain.tree) ==> chain.tree.Ancestor(old(chain.sync), b.id)
      ensures Anchored(View(chain.tree, old(chain.sync), mid))
      ensures !Takes(testNet, old(Now()), accept, b) ==> !ok && mid == chain.tip && unchanged(this) && unchanged(chain) && unchanged(chain.txdb)
      ensures Takes(testNet, old(Now()), accept, b) ==>
        && chain.tree == Grow(old(chain.tree), b, at)
        && (mid == old(chain.tip) || mid == b.id)
        && (ok <==> (chain.tree.nodes[b.id].trust > chain.tree.nodes[old(chain.tip)].trust ==> mid == b.id))
      ensures Takes(testNet, old(Now()), accept, b) && old(chain.Valid() && chain.Fits(b, at)) ==>
        (mid == b.id <==> Overtakes(rules, chain.disk, old(Now()), chain.tree, b.id))
      ensures Takes(testNet, old(Now()), accept, b) && old(chain.Accounted()) && OnDisk(chain.disk, b, at) ==>
        (mid == b.id <==>
           && Overtakes(rules, chain.disk, old(Now()), chain.tree, b.id)
           && Undone(chain.tree, old(chain.txdb.index), ForkOf(chain.tree, old(chain.tip), b.id), old(chain.tip)).Some?)
      ensures !ok ==> mid == chain.tip == old(chain.tip) && pending == old(pending)
      ensures chain.tip == mid || (chain.tip == chain.sync && chain.sync != old(chain.sync))
      ensures chain.sync != old(chain.sync) ==> old(pending) != 0 && Follows(View(chain.tree, old(chain.sync), mid), chain.sync) && pending == 0
      ensures ok && old(chain.Valid() && chain.tree.Has(b.prev) && chain.Fits(b, at)) && Reaches(rules, chain.disk, chain.tree, old(chain.tip), mid) ==>
        var v := View(chain.tree, old(chain.sync), mid);
        chain.sync != old(chain.sync) <==> old(pending) != 0 && Follows(v, old(pending)) && CanLead(rules, chain.disk, v, old(pending))
      ensures old(chain.Valid() && (chain.tree.Has(b.prev) ==> chain.Fits(b, at))) &&
              Reaches(rules, chain.disk, chain.tree, old(chain.tip), mid) && Reaches(rules, chain.disk, chain.tree, mid, chain.tip) ==>
                chain.Valid()
      ensures old(chain.Accounted() && (chain.tree.Has(b.prev) ==> OnDisk(chain.disk, b, at))) &&
              Reaches(rules, chain.disk, chain.tree, old(chain.tip), mid) && Reaches(rules, chain.disk, chain.tree, mid, chain.tip) ==>
                chain.Accounted()
    {
      hide LinksBelow, Step, Reaches, Connected, Held, Sound, AllStored, Links, Grow, CanLead, CanLeadFrom, Overtakes, Undone, Chain.Accounted, Chain.Valid;
      ghost var v := Now();
      ok := IndexBlock(rules, accept, b, at);
      ghost var v' := Now();
      mid := chain.tip;
      AncestorAt(chain.tree, chain.sync, mid);
      if ok {
        var moved := AcceptPendingSyncCheckpoint(rules);
        StepTrans(v, v', Now());
      }
    }

    method Handle(e: Event) returns (ghost mid: Hash)
      requires chain.Steady()
      modifies this`pending, this`invalid, chain`tree, chain`next, chain`stats, chain`tip, chain`sync, chain.txdb
      ensures chain.Steady()
      ensures Anchored(old(Now())) && Step(old(Now()), Now())
      ensures chain.tree == Indexed(testNet, e, old(Now()))
      ensures old(chain.Valid()) && Shelved(chain.disk, e, old(Now())) && NewIds(e, old(Now())) ==> Chooses(testNet, chain.disk, e, old(Now()), mid)
      ensures old(chain.Accounted()) && Smooth(chain.disk, e, old(Now()), mid, Now()) ==> chain.Accounted()
      ensures old(chain.Valid()) && Smooth(chain.disk, e, old(Now()), mid, Now()) && NewIds(e, old(Now())) ==> chain.Valid()
    {
      hide LinksBelow, Step, Reaches, Connected, Held, Sound, AllStored, Links, CanLead, CanLeadFrom, Overtakes, Undone, Chain.Accounted, Chain.Valid;
      mid := chain.tip;
      var ok;
      match e {
        case Arrival(rules, accept, b, at) => ok, mid := AcceptBlock(rules, accept, b, at);
        case Message(rules, h) => ok := ProcessSyncCheckpoint(rules, h);
      }
    }

    /** In every run of block arrivals and checkpoint messages, whatever connects
        and whatever ids repeat, the checkpoint moves only to descendants: the
        checkpoint of any moment is behind checkpoint and best block of every
        later one.  The tree ends with the blocks it began with and those taken on
        the way.

        If whatever becomes the best block connects, then, whatever ids repeat, the
        index ends as the replay of the best chain without some fully spent entries,
        and the supply counter is the value of its unspent outputs.  If no id
        repeats either, the index is the replay itself. */
    method Run(events: seq<Event>) returns (ghost run: seq<View>, ghost mids: seq<Hash>)
      requires chain.Steady()
      modifies this`pending, this`invalid, chain`tree, chain`next, chain`stats, chain`tip, chain`sync, chain.txdb
      ensures chain.Steady()
      ensures |run| == |events| + 1 && run[0] == old(Now()) && run[|events|] == Now()
      ensures IsRun(run) && AllLead(run)
      ensures AllIndexed(testNet, events, run, |events|)
      ensures forall h :: chain.tree.Has(h) <==> old(chain.tree.Has(h)) || Arrived(testNet, events, run, |events|, h)
      ensures |mids| == |events|
      ensures old(chain.Valid()) ==> AllChosen(testNet, chain.disk, events, run, mids, |events|)
      ensures old(chain.Accounted()) && AllSmooth(chain.disk, events, run, mids, |events|) ==>
        && chain.Accounted()
        && UnspentTotal(chain.disk, chain.txdb.index) == chain.stats[chain.tip].supply
      ensures old(chain.Valid()) && AllSmooth(chain.disk, events, run, mids, |events|) && AllNewIds(events, run, |events|) ==>
        chain.Valid()
    {
      hide Step, IsRun, AllLead, Smooth, AllSmooth, AllNewIds, NewIds, Shelved, Chain.Valid, Chain.Accounted, Anchored, UnspentTotal;
      hide AllIndexed, Arrived, AllChosen, Indexed, Chooses;
      run, mids := [Now()], [];
      ghost var fine, held := chain.Valid(), chain.Accounted();
      OneMoment(Now());
      SmoothStart(testNet, chain.disk, events, run, mids);
      for n := 0 to |events|
        invariant chain.Steady()
        invariant |run| == n + 1 && run[0] == old(Now()) && run[n] == Now()
        invariant IsRun(run) && AllLead(run)
        invariant |mids| == n
        invariant AllIndexed(testNet, events, run, n)
        invariant fine ==> AllChosen(testNet, chain.disk, events, run, mids, n)
        invariant held && AllSmooth(chain.disk, events, run, mids, n) ==> chain.Accounted()
        invariant fine && AllSmooth(chain.disk, events, run, mids, n) && AllNewIds(events, run, n) ==> chain.Valid()
      {
        NewIdsLast(events, run, n);
        ghost var mid := Handle(events[n]);
        IndexedNext(testNet, events, run, Now(), n);
        if fine {
          ChosenNext(testNet, chain.disk, events, run, mids, Now(), mid, n);
        }
        NextMoment(run, Now());
        SmoothNext(chain.disk, events, run, mids, Now(), mid, n);
        run, mids := run + [Now()], mids + [mid];
      }
      AllIsIndexed(testNet, events, run, |events|);
      if chain.Accounted() {
        AccountsAtTip(chain);
      }
    }
  }

  lemma OneMoment(v: View)
    requires v.tree.Valid() && v.tree.Has(v.tip) && v.tree.Ancestor(v.sync, v.tip)
    ensures IsRun([v]) && AllLead([v])
  {
    AncestorAt(v.tree, v.sync, v.tip);
    CheckpointOnlyDescends([v], 0);
  }

  lemma SmoothStart(testNet: bool, disk: Disk, events: seq<Event>, run: seq<View>, mids: seq<Hash>)
    requires |run| == 1
    ensures AllSmooth(disk, events, run, mids, 0) && AllIndexed(testNet, events, run, 0)
    ensures AllChosen(testNet, disk, events, run, mids, 0)
  {}

  lemma NewIdsLast(events: seq<Event>, run: seq<View>, n: nat)
    requires n < |events| && n < |run|
    ensures AllNewIds(events, run, n + 1) ==> AllNewIds(events, run, n) && NewIds(events[n], run[n])
  {
    hide NewIds;
  }

  lemma SmoothNext(disk: Disk, events: seq<Event>, run: seq<View>, mids: seq<Hash>, v: View, mid: Hash, n: nat)
    requires n < |events| && |mids| == n && |run| == n + 1
    ensures AllSmooth(disk, events, run + [v], mids + [mid], n + 1) ==>
      AllSmooth(disk, events, run, mids, n) && Smooth(disk, events[n], run[n], mid, v)
    ensures AllNewIds(events, run + [v], n + 1) ==> AllNewIds(events, run, n) && NewIds(events[n], run[n])
  {
    hide Smooth, NewIds;
    var run', mids' := run + [v], mids + [mid];
    if AllSmooth(disk, events, run', mids', n + 1) {
      forall i | 0 <= i < n ensures Smooth(disk, events[i], run[i], mids[i], run[i + 1]) {
        assert Smooth(disk, events[i], run'[i], mids'[i], run'[i + 1]);
      }
      assert Smooth(disk, events[n], run'[n], mids'[n], run'[n + 1]);
    }
    if AllNewIds(events, run', n + 1) {
      forall i | 0 <= i <= n ensures NewIds(events[i], run[i]) {
        assert NewIds(events[i], run'[i]);
      }
    }
  }

  lemma AccountsAtTip(c: Chain)
    requires c.Accounted()
    ensures c.tip in c.stats && UnspentTotal(c.disk, c.txdb.index) == c.stats[c.tip].supply
  {
    hide UnspentTotal;
    HeldIsCounted(c.disk, c.tree, c.stats, c.txdb.index, c.tip);
    TipAccounts(c);
  }

  lemma NextMoment(run: seq<View>, v: View)
    requires IsRun(run) && AllLead(run) && Step(run[|run| - 1], v)
    ensures IsRun(run + [v]) && AllLead(run + [v])
  {
    hide Step, Leads;
    var run' := run + [v];
    assert run'[..|run'| - 1] == run;
    forall i, j | 0 <= i <= j < |run'| ensures Leads(run'[i], run'[j]) {
      if j == |run| {
        CheckpointOnlyDescends(run', i);
      }
    }
  }
}

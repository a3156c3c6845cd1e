/**
 Indexes that have lost fully spent entries.

 Disconnecting a block that repeats the id of a fully spent transaction loses the
 old entry.  What is lost can never be spent again and is worth nothing, so that
 all further blocks connect as they would on the full index, to the same counters.
 */
module PrunedIndex {
  import opened Basics
  import opened Transactions
  import opened MarkedOutputs
  import opened Ledger
  import opened Supply

  // m is r without some fully spent entries.
  ghost predicate Pruned(m: Index, r: Index) {
    && (forall h | h in m :: h in r && m[h] == r[h])
    && (forall h | h in r && h !in m :: FullySpent(r[h]))
  }

  lemma PrunedSet(m: Index, r: Index, h: Hash, e: TxIndex)
    requires Pruned(m, r)
    ensures Pruned(m[h := e], r[h := e])
  {}

  // --- connecting

  lemma {:induction false} PrunedSpend(m: Index, r: Index, vin: seq<OutPoint>, k: nat, pos: TxPos)
    requires Pruned(m, r) && k <= |vin|
    ensures SpendInputs(m, vin, k, pos).Some? <==> SpendInputs(r, vin, k, pos).Some?
    ensures SpendInputs(m, vin, k, pos).Some? ==> Pruned(SpendInputs(m, vin, k, pos).value, SpendInputs(r, vin, k, pos).value)
  {
    if k > 0 {
      PrunedSpend(m, r, vin, k - 1, pos);
    }
  }

  // All inputs name entries that both indexes have.
  ghost predicate InputsAgree(m: Index, r: Index, vin: seq<OutPoint>) {
    forall i | 0 <= i < |vin| :: vin[i].hash in m && vin[i].hash in r && m[vin[i].hash] == r[vin[i].hash]
  }

  lemma SpentInputsAgree(m: Index, r: Index, vin: seq<OutPoint>, pos: TxPos)
    requires Pruned(m, r) && SpendInputs(m, vin, |vin|, pos).Some?
    ensures InputsAgree(m, r, vin)
  {
    forall i | 0 <= i < |vin| ensures vin[i].hash in m {
      SpendsUnspent(m, vin, |vin|, pos, i);
    }
  }

  lemma {:induction false} SumInAgrees(disk: Disk, m: Index, r: Index, vin: seq<OutPoint>, k: nat)
    requires InputsAgree(m, r, vin) && k <= |vin|
    ensures SumIn(disk, m, vin, k) == SumIn(disk, r, vin, k)
  {
    if k > 0 {
      SumInAgrees(disk, m, r, vin, k - 1);
    }
  }

  lemma OrderAgrees(disk: Disk, m: Index, r: Index, tx: Tx)
    requires InputsAgree(m, r, tx.vin)
    ensures InputsPresent(disk, m, tx) <==> InputsPresent(disk, r, tx)
    ensures InputsPresent(disk, m, tx) ==> (InputsInOrder(disk, m, tx, |tx.vin|) <==> InputsInOrder(disk, r, tx, |tx.vin|))
    ensures TxValueIn(disk, m, tx) == TxValueIn(disk, r, tx) && TxFee(disk, m, tx) == TxFee(disk, r, tx)
  {
    hide SumIn;
    SumInAgrees(disk, m, r, tx.vin, |tx.vin|);
    if InputsPresent(disk, m, tx) {
      forall i | 0 <= i < |tx.vin| ensures InputInOrder(disk, m, tx, i) <==> InputInOrder(disk, r, tx, i) {
        SumInAgrees(disk, m, r, tx.vin, i + 1);
      }
    }
  }

  // The same running sums on a pruned and on the full index
  ghost predicate TallyPruned(t: Tally, u: Tally) {
    Pruned(t.index, u.index) && t.valueIn == u.valueIn && t.valueOut == u.valueOut && t.fees == u.fees
  }

  ghost predicate BothPruned(t: Option<Tally>, u: Option<Tally>) {
    (t.Some? <==> u.Some?) && (t.Some? ==> TallyPruned(t.value, u.value))
  }

  lemma PrunedConnectTx(disk: Disk, t: Tally, u: Tally, tx: Tx, pos: TxPos)
    requires TallyPruned(t, u)
    ensures BothPruned(ConnectTx(disk, t, tx, pos), ConnectTx(disk, u, tx, pos))
  {
    hide SpendInputs, InputsPresent, InputsInOrder, SumIn, SumOut, Pruned;
    var m, r := t.index, u.index;
    if !tx.IsCoinBase() {
      PrunedSpend(m, r, tx.vin, |tx.vin|, pos);
      if SpendInputs(m, tx.vin, |tx.vin|, pos).Some? {
        SpentInputsAgree(m, r, tx.vin, pos);
        OrderAgrees(disk, m, r, tx);
      }
    }
    if ConnectTx(disk, t, tx, pos).Some? {
      PrunedSet(Spent(disk, m, tx, pos), Spent(disk, r, tx, pos), tx.id, Unspent(pos, |tx.vout|));
    }
  }

  lemma {:induction false} PrunedConnectTxs(disk: Disk, m: Index, r: Index, b: Block, at: FilePos, k: nat)
    requires Pruned(m, r) && k <= |b.vtx|
    ensures BothPruned(ConnectTxs(disk, m, b, at, k), ConnectTxs(disk, r, b, at, k))
  {
    hide ConnectTx, Pruned;
    if k > 0 {
      PrunedConnectTxs(disk, m, r, b, at, k - 1);
      if ConnectTxs(disk, m, b, at, k - 1).Some? {
        PrunedConnectTx(disk, ConnectTxs(disk, m, b, at, k - 1).value, ConnectTxs(disk, r, b, at, k - 1).value, b.vtx[k - 1], PosOf(b, at, k - 1));
      }
    }
  }

  lemma PrunedOverwrites(m: Index, r: Index, b: Block)
    requires Pruned(m, r)
    ensures OverwritesOnlySpent(m, b, 0) <==> OverwritesOnlySpent(r, b, 0)
  {
    hide FullySpent;
  }

  /** A block connects to a pruned index exactly if it connects to the full one,
      with the same counters, and leaves a pruned index again. */
  lemma PrunedApply(disk: Disk, m: Index, r: Index, tip: Tip, b: Block, at: FilePos)
    requires Pruned(m, r)
    ensures var o, p := ApplyBlock(disk, State(m, tip), b, at), ApplyBlock(disk, State(r, tip), b, at);
      && (o.Some? <==> p.Some?)
      && (o.Some? ==> o.value.tip == p.value.tip && Pruned(o.value.index, p.value.index))
  {
    hide ConnectTxs, FullSubsidy, Pruned, OverwritesOnlySpent, WellPlaced;
    PrunedOverwrites(m, r, b);
    PrunedConnectTxs(disk, m, r, b, at, |b.vtx|);
    WellPlacedNotEmpty(b);
  }

  lemma WellPlacedNotEmpty(b: Block)
    ensures WellPlaced(b) ==> |b.vtx| > 0
  {}

  // --- disconnecting

  lemma {:induction false} ClearedArePresent(m: Index, vin: seq<OutPoint>, k: nat)
    requires k <= |vin| && UnspendInputs(m, vin, k).Some?
    ensures AllPresent(m, vin, k)
  {
    if k > 0 {
      ClearedArePresent(m, vin, k - 1);
      UnspendMarks(m, vin, k - 1);
      MarkedHasOutput(m, UnspendInputs(m, vin, k - 1).value, vin, k - 1, None, vin[k - 1]);
    }
  }

  lemma {:induction false} PresentAt(m: Index, vin: seq<OutPoint>, k: nat, i: nat)
    requires i < k <= |vin| && AllPresent(m, vin, k)
    ensures HasOutput(m, vin[i])
  {
    if i < k - 1 {
      PresentAt(m, vin, k - 1, i);
    }
  }

  // ... leaving one entry aside
  ghost predicate PrunedBut(m: Index, r: Index, own: Hash) {
    && (forall h | h in m && h != own :: h in r && m[h] == r[h])
    && (forall h | h in r && h !in m && h != own :: FullySpent(r[h]))
  }

  lemma BeforeInsert(m: Index, r: Index, h: Hash, e: TxIndex)
    requires Pruned(m, r[h := e])
    ensures PrunedBut(m, r, h)
  {
    hide FullySpent;
    forall x | x in r && x !in m && x != h ensures FullySpent(r[x]) {
      assert r[h := e][x] == r[x];
    }
  }

  lemma AfterErase(m: Index, r: Index, h: Hash)
    requires PrunedBut(m, r, h) && (h in r ==> FullySpent(r[h]))
    ensures Pruned(m - {h}, r)
  {
    hide FullySpent;
  }

  // All inputs name unspent outputs.
  ghost predicate AllUnspent(r: Index, vin: seq<OutPoint>) {
    forall i | 0 <= i < |vin| :: HasOutput(r, vin[i]) && r[vin[i].hash].spent[vin[i].n].None?
  }

  lemma SpentWereUnspent(r: Index, vin: seq<OutPoint>, pos: TxPos)
    requires SpendInputs(r, vin, |vin|, pos).Some?
    ensures AllUnspent(r, vin)
  {
    forall i | 0 <= i < |vin| ensures HasOutput(r, vin[i]) && r[vin[i].hash].spent[vin[i].n].None? {
      SpendsUnspent(r, vin, |vin|, pos, i);
    }
  }

  // Clearing the marks of a pruned index gives a pruned index of what it was
  // before they were made.
  lemma PrunedUnspend(m: Index, m': Index, r: Index, r': Index, vin: seq<OutPoint>, pos: TxPos, own: Hash)
    requires MarkedAs(r, r', vin, |vin|, Some(pos)) && MarkedAs(m, m', vin, |vin|, None)
    requires AllUnspent(r, vin) && AllPresent(m, vin, |vin|)
    requires PrunedBut(m, r', own)
    ensures PrunedBut(m', r, own)
  {
    hide EntryMarkedAs, FullySpent;
    forall i | 0 <= i < |vin| ensures vin[i].hash in m {
      PresentAt(m, vin, |vin|, i);
    }
    forall h | h in m' && h != own ensures h in r && m'[h] == r[h] {
      ClearedEntry(h, r[h], r'[h], m'[h], vin, pos);
    }
    forall h | h in r && h !in m' && h != own ensures FullySpent(r[h]) {
      UnnamedEntry(h, r[h], r'[h], vin, pos);
    }
  }

  lemma ClearedEntry(h: Hash, e: TxIndex, marked: TxIndex, cleared: TxIndex, vin: seq<OutPoint>, pos: TxPos)
    requires EntryMarkedAs(h, e, marked, vin, |vin|, Some(pos)) && EntryMarkedAs(h, marked, cleared, vin, |vin|, None)
    requires forall i | 0 <= i < |vin| && vin[i].hash == h :: vin[i].n < |e.spent| && e.spent[vin[i].n].None?
    ensures cleared == e
  {
    forall n | 0 <= n < |e.spent| ensures cleared.spent[n] == e.spent[n] {
      if OutPoint(h, n) in vin[..|vin|] {
        var i :| 0 <= i < |vin| && vin[i] == OutPoint(h, n);
      }
    }
    assert cleared.spent == e.spent;
  }

  lemma UnnamedEntry(h: Hash, e: TxIndex, marked: TxIndex, vin: seq<OutPoint>, pos: TxPos)
    requires EntryMarkedAs(h, e, marked, vin, |vin|, Some(pos)) && FullySpent(marked)
    requires forall i | 0 <= i < |vin| :: vin[i].hash != h
    ensures FullySpent(e)
  {
    forall n | 0 <= n < |e.spent| ensures e.spent[n].Some? {
      assert OutPoint(h, n) !in vin[..|vin|];
      assert marked.spent[n].Some?;
    }
  }

  lemma PrunedDisconnectTx(disk: Disk, m: Index, u: Tally, tx: Tx, pos: TxPos)
    requires ConnectTx(disk, u, tx, pos).Some? && Pruned(m, ConnectTx(disk, u, tx, pos).value.index)
    requires tx.id in u.index ==> FullySpent(u.index[tx.id])
    requires DisconnectTx(m, tx).Some?
    ensures Pruned(DisconnectTx(m, tx).value, u.index)
  {
    hide FullySpent, MarkedAs, SpendInputs, UnspendInputs, InputsPresent, InputsInOrder, Pruned, PrunedBut, AllUnspent, AllPresent;
    var r, vin := u.index, tx.vin;
    BeforeInsert(m, Spent(disk, r, tx, pos), tx.id, Unspent(pos, |tx.vout|));
    if tx.IsCoinBase() {
      AfterErase(m, r, tx.id);
    } else {
      SpendMarks(r, vin, |vin|, pos);
      SpentWereUnspent(r, vin, pos);
      ClearedArePresent(m, vin, |vin|);
      UnspendMarks(m, vin, |vin|);
      var m' := UnspendInputs(m, vin, |vin|).value;
      PrunedUnspend(m, m', r, SpendInputs(r, vin, |vin|, pos).value, vin, pos, tx.id);
      AfterErase(m', r, tx.id);
    }
  }

  lemma {:induction false} StillOverwrites(disk: Disk, r: Index, b: Block, at: FilePos, k: nat)
    requires k <= |b.vtx| && DistinctIds(b) && OverwritesOnlySpent(r, b, 0)
    requires ConnectTxs(disk, r, b, at, k).Some?
    ensures OverwritesOnlySpent(ConnectTxs(disk, r, b, at, k).value.index, b, k)
  {
    hide ConnectTx, OverwritesOnlySpent, DistinctIds;
    if k > 0 {
      StillOverwrites(disk, r, b, at, k - 1);
      StillOverwritesOnlySpent(disk, ConnectTxs(disk, r, b, at, k - 1).value, b, at, k - 1);
    }
  }

  lemma OverwritesAt(r: Index, b: Block, k: nat)
    requires k < |b.vtx| && OverwritesOnlySpent(r, b, k)
    ensures b.vtx[k].id in r ==> FullySpent(r[b.vtx[k].id])
  {}

  lemma {:induction false} PrunedDisconnectTxs(disk: Disk, m: Index, r: Index, b: Block, at: FilePos, k: nat)
    requires k <= |b.vtx| && DistinctIds(b) && OverwritesOnlySpent(r, b, 0)
    requires ConnectTxs(disk, r, b, at, |b.vtx|).Some? && Pruned(m, ConnectTxs(disk, r, b, at, |b.vtx|).value.index)
    requires DisconnectTxs(m, b, k).Some?
    ensures ConnectTxs(disk, r, b, at, k).Some?
    ensures Pruned(DisconnectTxs(m, b, k).value, ConnectTxs(disk, r, b, at, k).value.index)
    decreases |b.vtx| - k
  {
    hide ConnectTx, DisconnectTx, OverwritesOnlySpent, DistinctIds, Pruned;
    if k < |b.vtx| {
      PrunedDisconnectTxs(disk, m, r, b, at, k + 1);
      ConnectTxsPrefix(disk, r, b, at, k, k + 1);
      var u := ConnectTxs(disk, r, b, at, k).value;
      StillOverwrites(disk, r, b, at, k);
      OverwritesAt(u.index, b, k);
      PrunedDisconnectTx(disk, DisconnectTxs(m, b, k + 1).value, u, b.vtx[k], PosOf(b, at, k));
    }
  }

  /** A successful disconnect takes a pruned index of a replayed chain to one of
      the chain without its last block, whatever ids repeat. */
  lemma PrunedDisconnect(disk: Disk, m: Index, before: seq<Stored>, last: Stored)
    requires Replay(disk, before + [last]).Some? && Pruned(m, Replay(disk, before + [last]).value.index)
    requires DisconnectTxs(m, last.block, 0).Some?
    ensures Replay(disk, before).Some?
    ensures Pruned(DisconnectTxs(m, last.block, 0).value, Replay(disk, before).value.index)
  {
    hide ConnectTxs, DisconnectTxs, FullSubsidy, Pruned, OverwritesOnlySpent;
    var chain := before + [last];
    assert chain[..|chain| - 1] == before;
    var r := Replay(disk, before).value.index;
    PrunedDisconnectTxs(disk, m, r, last.block, last.at, 0);
    NothingConnected(disk, r, last.block, last.at);
  }

  lemma NothingConnected(disk: Disk, r: Index, b: Block, at: FilePos)
    ensures ConnectTxs(disk, r, b, at, 0) == Some(Tally(r, 0, 0, 0))
  {}

  // --- what is lost is worth nothing

  lemma LoseOne(m: Index, r: Index, h: Hash)
    requires Pruned(m, r) && h in r && h !in m
    ensures Pruned(m, r - {h}) && FullySpent(r[h])
  {
    hide FullySpent;
  }

  lemma SameOrLost(m: Index, r: Index)
    requires Pruned(m, r)
    ensures m == r || exists h :: h in r && h !in m
  {
    hide FullySpent;
    if forall h | h in r :: h in m {
      assert m.Keys == r.Keys;
    }
  }

  /** A pruned index holds the same unspent value. */
  lemma {:induction false} PrunedTotal(disk: Disk, m: Index, r: Index)
    requires Pruned(m, r)
    ensures UnspentTotal(disk, m) == UnspentTotal(disk, r)
    decreases |r|
  {
    hide UnspentTotal, EntryValue, Pruned, FullySpent;
    SameOrLost(m, r);
    if m != r {
      var h :| h in r && h !in m;
      LoseOne(m, r, h);
      TotalPick(disk, r, h);
      EntryFullySpent(disk, r[h], |r[h].spent|);
      PrunedTotal(disk, m, r - {h});
    }
  }
}

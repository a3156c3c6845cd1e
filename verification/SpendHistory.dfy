/**
 What the marks in the index say about the chain: each names the transaction that
 made it, and together they are the inputs of the chain, each once.
 */
module SpendHistory {
  import opened Basics
  import opened Transactions
  import opened MarkedOutputs
  import opened Ledger

  // --- marks name their spenders

  // The entry of h describes a transaction with that id, output by output, and a
  // mark names a transaction with that input which is not older.
  ghost predicate EntryDescribes(disk: Disk, h: Hash, e: TxIndex) {
    && disk(e.pos).id == h && |e.spent| == |disk(e.pos).vout|
    && forall n | 0 <= n < |e.spent| && e.spent[n].Some? :: NamesSpender(disk, h, n, e.pos, e.spent[n].value)
  }

  ghost predicate NamesSpender(disk: Disk, h: Hash, n: nat, pos: TxPos, spender: TxPos) {
    OutPoint(h, n) in disk(spender).vin && disk(pos).time <= disk(spender).time
  }

  ghost predicate Describes(disk: Disk, m: Index) {
    forall h | h in m :: EntryDescribes(disk, h, m[h])
  }

  lemma SpentDescribes(disk: Disk, m: Index, m': Index, tx: Tx, pos: TxPos)
    requires Describes(disk, m) && disk(pos) == tx && InputsPresent(disk, m, tx) && InputsInOrder(disk, m, tx, |tx.vin|)
    requires MarkedAs(m, m', tx.vin, |tx.vin|, Some(pos))
    ensures Describes(disk, m')
  {
    var vin := tx.vin;
    assert vin[..|vin|] == vin;
    forall h | h in m' ensures EntryDescribes(disk, h, m'[h]) {
      assert EntryMarkedAs(h, m[h], m'[h], vin, |vin|, Some(pos));
      assert EntryDescribes(disk, h, m[h]);
      forall n | 0 <= n < |m[h].spent| && OutPoint(h, n) in vin ensures NamesSpender(disk, h, n, m[h].pos, pos) {
        var i :| 0 <= i < |vin| && vin[i] == OutPoint(h, n);
        assert InputInOrder(disk, m, tx, i);
      }
    }
  }

  lemma ConnectDescribes(disk: Disk, t: Tally, tx: Tx, pos: TxPos)
    requires Describes(disk, t.index) && disk(pos) == tx && ConnectTx(disk, t, tx, pos).Some?
    ensures Describes(disk, ConnectTx(disk, t, tx, pos).value.index)
  {
    hide EntryDescribes, SpendInputs, MarkedAs;
    if !tx.IsCoinBase() {
      SpendMarks(t.index, tx.vin, |tx.vin|, pos);
      SpentDescribes(disk, t.index, SpendInputs(t.index, tx.vin, |tx.vin|, pos).value, tx, pos);
    }
    FreshDescribes(disk, tx, pos);
  }

  lemma FreshDescribes(disk: Disk, tx: Tx, pos: TxPos)
    requires disk(pos) == tx
    ensures EntryDescribes(disk, tx.id, Unspent(pos, |tx.vout|))
  {}

  lemma {:induction false} ConnectTxsDescribes(disk: Disk, m: Index, b: Block, at: FilePos, k: nat)
    requires k <= |b.vtx| && OnDisk(disk, b, at) && Describes(disk, m) && ConnectTxs(disk, m, b, at, k).Some?
    ensures Describes(disk, ConnectTxs(disk, m, b, at, k).value.index)
  {
    hide Describes, ConnectTx;
    if k > 0 {
      ConnectTxsDescribes(disk, m, b, at, k - 1);
      ConnectDescribes(disk, ConnectTxs(disk, m, b, at, k - 1).value, b.vtx[k - 1], PosOf(b, at, k - 1));
    }
  }

  /** On every connected chain the index describes the transactions on disk, and
      every mark names a transaction that spends the output and is not older. */
  lemma {:induction false} IndexDescribesChain(disk: Disk, chain: seq<Stored>)
    requires AllOnDisk(disk, chain) && Replay(disk, chain).Some?
    ensures Describes(disk, Replay(disk, chain).value.index)
  {
    hide EntryDescribes, ConnectTxs, FullSubsidy;
    if chain != [] {
      var before, last := chain[..|chain| - 1], chain[|chain| - 1];
      IndexDescribesChain(disk, before);
      ConnectTxsDescribes(disk, Replay(disk, before).value.index, last.block, last.at, |last.block.vtx|);
    }
  }

  // --- marks are the inputs of the chain

  predicate IsMarked(m: Index, o: OutPoint) {
    HasOutput(m, o) && m[o.hash].spent[o.n].Some?
  }

  function TxSpends(tx: Tx): multiset<OutPoint> {
    if tx.IsCoinBase() then multiset{} else multiset(tx.vin)
  }

  // The inputs of the first k transactions
  function BlockSpends(b: Block, k: nat): multiset<OutPoint>
    requires k <= |b.vtx|
  {
    if k == 0 then multiset{} else BlockSpends(b, k - 1) + TxSpends(b.vtx[k - 1])
  }

  function ChainSpends(chain: seq<Stored>): multiset<OutPoint> {
    if chain == [] then multiset{} else
    var b := chain[|chain| - 1].block;
    ChainSpends(chain[..|chain| - 1]) + BlockSpends(b, |b.vtx|)
  }

  // Every outpoint occurs once if it is marked and not at all otherwise.
  ghost predicate MarksAre(m: Index, spends: multiset<OutPoint>) {
    forall o {:trigger spends[o]} {:trigger IsMarked(m, o)} :: spends[o] == if IsMarked(m, o) then 1 else 0
  }

  lemma {:induction false} SpendingMarks(m: Index, vin: seq<OutPoint>, k: nat, pos: TxPos, spends: multiset<OutPoint>)
    requires k <= |vin| && MarksAre(m, spends) && SpendInputs(m, vin, k, pos).Some?
    ensures MarksAre(SpendInputs(m, vin, k, pos).value, spends + multiset(vin[..k]))
  {
    if k == 0 {
      assert vin[..0] == [];
      assert spends + multiset(vin[..0]) == spends;
    } else {
      SpendingMarks(m, vin, k - 1, pos, spends);
      var m', o := SpendInputs(m, vin, k - 1, pos).value, vin[k - 1];
      assert vin[..k] == vin[..k - 1] + [o];
      assert spends + multiset(vin[..k]) == (spends + multiset(vin[..k - 1])) + multiset{o};
      MarkOne(m', o, pos, spends + multiset(vin[..k - 1]));
    }
  }

  lemma MarkOne(m: Index, o: OutPoint, pos: TxPos, spends: multiset<OutPoint>)
    requires MarksAre(m, spends) && HasOutput(m, o) && !IsMarked(m, o)
    ensures MarksAre(SetSpent(m, o, Some(pos)), spends + multiset{o})
  {
    var m' := SetSpent(m, o, Some(pos));
    forall x ensures (spends + multiset{o})[x] == if IsMarked(m', x) then 1 else 0 {
      assert x != o ==> (IsMarked(m', x) <==> IsMarked(m, x));
      assert spends[x] == if IsMarked(m, x) then 1 else 0;
    }
  }

  lemma InsertMarks(m: Index, h: Hash, e: TxIndex, spends: multiset<OutPoint>)
    requires MarksAre(m, spends) && h !in m && forall n | 0 <= n < |e.spent| :: e.spent[n].None?
    ensures MarksAre(m[h := e], spends)
  {
    forall x ensures spends[x] == if IsMarked(m[h := e], x) then 1 else 0 {
      assert IsMarked(m[h := e], x) <==> IsMarked(m, x);
    }
  }

  lemma ConnectMarks(disk: Disk, t: Tally, tx: Tx, pos: TxPos, spends: multiset<OutPoint>)
    requires MarksAre(t.index, spends) && tx.id !in t.index && ConnectTx(disk, t, tx, pos).Some?
    ensures MarksAre(ConnectTx(disk, t, tx, pos).value.index, spends + TxSpends(tx))
  {
    hide MarksAre, SpendInputs, MarkedAs, InputsPresent, InputsInOrder;
    var n := |tx.vin|;
    if tx.IsCoinBase() {
      assert spends + TxSpends(tx) == spends;
    } else {
      SpendingMarks(t.index, tx.vin, n, pos, spends);
      assert tx.vin[..n] == tx.vin;
      SameKeys(t.index, tx.vin, n, pos);
    }
    InsertMarks(Spent(disk, t.index, tx, pos), tx.id, Unspent(pos, |tx.vout|), spends + TxSpends(tx));
  }

  lemma SameKeys(m: Index, vin: seq<OutPoint>, k: nat, pos: TxPos)
    requires k <= |vin| && SpendInputs(m, vin, k, pos).Some?
    ensures SpendInputs(m, vin, k, pos).value.Keys == m.Keys
  {
    SpendMarks(m, vin, k, pos);
  }

  lemma {:induction false} ConnectTxsMarks(disk: Disk, m: Index, b: Block, at: FilePos, k: nat, spends: multiset<OutPoint>)
    requires k <= |b.vtx| && DistinctIds(b) && m.Keys !! b.Ids() && MarksAre(m, spends) && ConnectTxs(disk, m, b, at, k).Some?
    ensures MarksAre(ConnectTxs(disk, m, b, at, k).value.index, spends + BlockSpends(b, k))
  {
    hide MarksAre, ConnectTx;
    if k == 0 {
      assert spends + BlockSpends(b, 0) == spends;
    } else {
      ConnectTxsMarks(disk, m, b, at, k - 1, spends);
      ConnectTxsKeys(disk, m, b, at, k - 1);
      assert b.vtx[k - 1].id in b.Ids();
      ConnectMarks(disk, ConnectTxs(disk, m, b, at, k - 1).value, b.vtx[k - 1], PosOf(b, at, k - 1), spends + BlockSpends(b, k - 1));
      assert spends + BlockSpends(b, k) == spends + BlockSpends(b, k - 1) + TxSpends(b.vtx[k - 1]);
    }
  }

  // No block repeats an id of the blocks before it.
  predicate NoIdRepeats(chain: seq<Stored>) {
    chain == [] ||
    (IdsOf(chain[..|chain| - 1]) !! chain[|chain| - 1].block.Ids() && NoIdRepeats(chain[..|chain| - 1]))
  }

  /** On every connected chain that repeats no id, the marked outputs are the inputs
      of its transactions, and no output is spent twice. */
  lemma {:induction false} NoOutputSpentTwice(disk: Disk, chain: seq<Stored>)
    requires Replay(disk, chain).Some? && NoIdRepeats(chain)
    ensures MarksAre(Replay(disk, chain).value.index, ChainSpends(chain))
  {
    hide ConnectTxs, FullSubsidy, BlockSpends, WellPlaced;
    if chain != [] {
      hide MarksAre;
      var before, last := chain[..|chain| - 1], chain[|chain| - 1];
      NoOutputSpentTwice(disk, before);
      ReplayKeys(disk, before);
      PlacedDistinct(last.block);
      ConnectTxsMarks(disk, Replay(disk, before).value.index, last.block, last.at, |last.block.vtx|, ChainSpends(before));
    }
  }

  lemma PlacedDistinct(b: Block)
    ensures WellPlaced(b) ==> DistinctIds(b)
  {}

  // --- which transactions connect

  // The output exists, is not spent, is not younger than the transaction and has a
  // value in range.
  predicate Spendable(disk: Disk, m: Index, tx: Tx, o: OutPoint) {
    && HasOutput(m, o) && m[o.hash].spent[o.n].None?
    && o.n < |disk(m[o.hash].pos).vout| && disk(m[o.hash].pos).time <= tx.time
    && 0 <= disk(m[o.hash].pos).vout[o.n].value <= MAX_MONEY
  }

  ghost predicate NoneTwice(vin: seq<OutPoint>) {
    forall i, j | 0 <= i < j < |vin| :: vin[i] != vin[j]
  }

  ghost predicate AllUnspent(m: Index, vin: seq<OutPoint>) {
    forall i | 0 <= i < |vin| :: HasOutput(m, vin[i]) && m[vin[i].hash].spent[vin[i].n].None?
  }

  // After the first k marks an output is unspent if it was and none of them names it.
  lemma UnspentAfter(m: Index, vin: seq<OutPoint>, k: nat, pos: TxPos, o: OutPoint)
    requires k <= |vin| && SpendInputs(m, vin, k, pos).Some?
    ensures var m' := SpendInputs(m, vin, k, pos).value;
      (HasOutput(m', o) && m'[o.hash].spent[o.n].None?) <==> (HasOutput(m, o) && m[o.hash].spent[o.n].None? && o !in vin[..k])
  {
    hide SpendInputs;
    SpendMarks(m, vin, k, pos);
    var m' := SpendInputs(m, vin, k, pos).value;
    MarkedHasOutput(m, m', vin, k, Some(pos), o);
    if o.hash in m {
      assert EntryMarkedAs(o.hash, m[o.hash], m'[o.hash], vin, k, Some(pos));
      assert OutPoint(o.hash, o.n) == o;
    }
  }

  lemma OneMoreInput(m: Index, vin: seq<OutPoint>, o: OutPoint)
    ensures NoneTwice(vin + [o]) && AllUnspent(m, vin + [o]) <==>
      NoneTwice(vin) && AllUnspent(m, vin) && o !in vin && HasOutput(m, o) && m[o.hash].spent[o.n].None?
  {
    var all := vin + [o];
    if NoneTwice(all) && AllUnspent(m, all) {
      assert all[|vin|] == o;
      forall i | 0 <= i < |vin| ensures vin[i] != o && HasOutput(m, vin[i]) && m[vin[i].hash].spent[vin[i].n].None? {
        assert all[i] == vin[i];
      }
      forall i, j | 0 <= i < j < |vin| ensures vin[i] != vin[j] {
        assert all[i] == vin[i] && all[j] == vin[j];
      }
    }
  }

  lemma {:induction false} SpendsExactly(m: Index, vin: seq<OutPoint>, k: nat, pos: TxPos)
    requires k <= |vin|
    ensures SpendInputs(m, vin, k, pos).Some? <==> NoneTwice(vin[..k]) && AllUnspent(m, vin[..k])
  {
    hide NoneTwice, AllUnspent, HasOutput;
    if k == 0 {
      NothingTwice(m);
    } else {
      SpendsExactly(m, vin, k - 1, pos);
      assert vin[..k] == vin[..k - 1] + [vin[k - 1]];
      OneMoreInput(m, vin[..k - 1], vin[k - 1]);
      if SpendInputs(m, vin, k - 1, pos).Some? {
        UnspentAfter(m, vin, k - 1, pos, vin[k - 1]);
      }
    }
  }

  lemma NothingTwice(m: Index)
    ensures NoneTwice([]) && AllUnspent(m, [])
  {}

  // With values in range, sums only grow.
  lemma {:induction false} SumsGrow(disk: Disk, m: Index, vin: seq<OutPoint>, j: nat, k: nat)
    requires j <= k <= |vin| && forall i | 0 <= i < k :: ValueOf(disk, m, vin[i]) >= 0
    ensures 0 <= SumIn(disk, m, vin, j) <= SumIn(disk, m, vin, k)
    decreases k
  {
    if j < k {
      SumsGrow(disk, m, vin, j, k - 1);
    } else if k > 0 {
      SumsGrow(disk, m, vin, k - 1, k - 1);
    }
  }

  ghost predicate AllSpendable(disk: Disk, m: Index, tx: Tx) {
    forall i | 0 <= i < |tx.vin| :: Spendable(disk, m, tx, tx.vin[i])
  }

  // The timestamps and ranges of all inputs, and the marks they find
  lemma OrderIsSpendable(disk: Disk, m: Index, tx: Tx)
    ensures InputsPresent(disk, m, tx) && InputsInOrder(disk, m, tx, |tx.vin|) && AllUnspent(m, tx.vin) <==>
      AllSpendable(disk, m, tx) && SumIn(disk, m, tx.vin, |tx.vin|) <= MAX_MONEY
  {
    hide SumIn;
    var n := |tx.vin|;
    NoSum(disk, m, tx.vin);
    if InputsPresent(disk, m, tx) && InputsInOrder(disk, m, tx, n) && AllUnspent(m, tx.vin) {
      forall i | 0 <= i < n ensures Spendable(disk, m, tx, tx.vin[i]) {
        assert InputInOrder(disk, m, tx, i);
      }
      if n > 0 {
        assert InputInOrder(disk, m, tx, n - 1);
      }
    }
    if AllSpendable(disk, m, tx) && SumIn(disk, m, tx.vin, n) <= MAX_MONEY {
      forall i | 0 <= i < n ensures InputInOrder(disk, m, tx, i) {
        assert Spendable(disk, m, tx, tx.vin[i]);
        SumsGrow(disk, m, tx.vin, i + 1, n);
      }
    }
  }

  /** A transaction connects exactly if it names different outputs, all of them
      spendable, with a total value in range that, unless it is a coinstake, covers its
      outputs. */
  lemma WhatConnects(disk: Disk, m: Index, tx: Tx, pos: TxPos)
    requires !tx.IsCoinBase()
    ensures Connects(disk, m, tx, pos) <==>
      && NoneTwice(tx.vin) && AllSpendable(disk, m, tx)
      && SumIn(disk, m, tx.vin, |tx.vin|) <= MAX_MONEY
      && (tx.IsCoinStake() || SumIn(disk, m, tx.vin, |tx.vin|) >= tx.ValueOut())
  {
    hide SpendInputs, SumIn, NoneTwice, SumOut, AllSpendable, AllUnspent, InputsPresent, InputsInOrder;
    SpendsExactly(m, tx.vin, |tx.vin|, pos);
    assert tx.vin[..|tx.vin|] == tx.vin;
    OrderIsSpendable(disk, m, tx);
  }

  lemma NoSum(disk: Disk, m: Index, vin: seq<OutPoint>)
    ensures SumIn(disk, m, vin, 0) == 0
  {}
}

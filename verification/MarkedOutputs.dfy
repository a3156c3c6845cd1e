/**
 The transaction index: for each transaction id the position of the transaction
 and, for each of its outputs, the position of the transaction that spends it.

 ConnectInputs marks outputs as spent, DisconnectInputs clears the marks.  The
 first half of the module says what connecting and disconnecting a block means
 on a plain map; the main results are that a disconnect gives back exactly the
 map it started from if and only if no id of the block was indexed before.
 */
module MarkedOutputs {
  import opened Basics
  import opened Transactions

  datatype TxIndex = TxIndex(pos: TxPos, spent: seq<Option<TxPos>>)

  type Index = map<Hash, TxIndex>

  function Unspent(pos: TxPos, outputs: nat): TxIndex {
    TxIndex(pos, seq(outputs, _ => None))
  }

  predicate HasOutput(m: Index, o: OutPoint) {
    o.hash in m && o.n < |m[o.hash].spent|
  }

  function SetSpent(m: Index, o: OutPoint, mark: Option<TxPos>): Index
    requires HasOutput(m, o)
  {
    m[o.hash := m[o.hash].(spent := m[o.hash].spent[o.n := mark])]
  }

  // Marks the first k inputs, each of which must name an unspent output.
  function SpendInputs(m: Index, vin: seq<OutPoint>, k: nat, pos: TxPos): Option<Index>
    requires k <= |vin|
  {
    if k == 0 then Some(m) else
    match SpendInputs(m, vin, k - 1, pos)
    case None => None
    case Some(m') =>
      var o := vin[k - 1];
      if HasOutput(m', o) && m'[o.hash].spent[o.n].None? then Some(SetSpent(m', o, Some(pos))) else None
  }

  // Clears the mark of the first k inputs, whatever it was.
  function UnspendInputs(m: Index, vin: seq<OutPoint>, k: nat): Option<Index>
    requires k <= |vin|
  {
    if k == 0 then Some(m) else
    match UnspendInputs(m, vin, k - 1)
    case None => None
    case Some(m') =>
      var o := vin[k - 1];
      if HasOutput(m', o) then Some(SetSpent(m', o, None)) else None
  }

  // FetchInputs finds every previous transaction and output.
  predicate InputsPresent(disk: Disk, m: Index, tx: Tx) {
    forall i | 0 <= i < |tx.vin| :: HasOutput(m, tx.vin[i]) && tx.vin[i].n < |disk(m[tx.vin[i].hash].pos).vout|
  }

  function ValueOf(disk: Disk, m: Index, o: OutPoint): int {
    if HasOutput(m, o) && o.n < |disk(m[o.hash].pos).vout| then disk(m[o.hash].pos).vout[o.n].value else 0
  }

  function SumIn(disk: Disk, m: Index, vin: seq<OutPoint>, k: nat): int
    requires k <= |vin|
  {
    if k == 0 then 0 else SumIn(disk, m, vin, k - 1) + ValueOf(disk, m, vin[k - 1])
  }

  // What the first loop of ConnectInputs asks of input i: timestamp and ranges
  predicate InputInOrder(disk: Disk, m: Index, tx: Tx, i: nat)
    requires i < |tx.vin| && HasOutput(m, tx.vin[i])
  {
    && disk(m[tx.vin[i].hash].pos).time <= tx.time
    && MoneyRange(ValueOf(disk, m, tx.vin[i]))
    && MoneyRange(SumIn(disk, m, tx.vin, i + 1))
  }

  predicate InputsInOrder(disk: Disk, m: Index, tx: Tx, k: nat)
    requires k <= |tx.vin|
    requires InputsPresent(disk, m, tx)
  {
    forall i | 0 <= i < k :: InputInOrder(disk, m, tx, i)
  }

  // What a block has done so far: the index and the running sums of ConnectBlock
  datatype Tally = Tally(index: Index, valueIn: int, valueOut: int, fees: int)

  function TxValueIn(disk: Disk, m: Index, tx: Tx): int {
    if tx.IsCoinBase() then 0 else SumIn(disk, m, tx.vin, |tx.vin|)
  }

  function TxFee(disk: Disk, m: Index, tx: Tx): int {
    if tx.IsCoinBase() || tx.IsCoinStake() then 0 else TxValueIn(disk, m, tx) - tx.ValueOut()
  }

  // FetchInputs and ConnectInputs succeed.
  predicate Connects(disk: Disk, m: Index, tx: Tx, pos: TxPos) {
    || tx.IsCoinBase()
    || (&& InputsPresent(disk, m, tx)
        && InputsInOrder(disk, m, tx, |tx.vin|)
        && SpendInputs(m, tx.vin, |tx.vin|, pos).Some?
        && TxFee(disk, m, tx) >= 0)
  }

  function Spent(disk: Disk, m: Index, tx: Tx, pos: TxPos): Index
    requires Connects(disk, m, tx, pos)
  {
    if tx.IsCoinBase() then m else SpendInputs(m, tx.vin, |tx.vin|, pos).value
  }

  function ConnectTx(disk: Disk, t: Tally, tx: Tx, pos: TxPos): Option<Tally> {
    if !Connects(disk, t.index, tx, pos) then None else
    Some(Tally(Spent(disk, t.index, tx, pos)[tx.id := Unspent(pos, |tx.vout|)],
               t.valueIn + TxValueIn(disk, t.index, tx),
               t.valueOut + tx.ValueOut(),
               t.fees + TxFee(disk, t.index, tx)))
  }

  function ConnectTxs(disk: Disk, m: Index, b: Block, at: FilePos, k: nat): Option<Tally>
    requires k <= |b.vtx|
  {
    if k == 0 then Some(Tally(m, 0, 0, 0)) else
    match ConnectTxs(disk, m, b, at, k - 1)
    case None => None
    case Some(t) => ConnectTx(disk, t, b.vtx[k - 1], PosOf(b, at, k - 1))
  }

  function DisconnectTx(m: Index, tx: Tx): Option<Index> {
    if tx.IsCoinBase() then Some(m - {tx.id}) else
    match UnspendInputs(m, tx.vin, |tx.vin|)
    case None => None
    case Some(m') => Some(m' - {tx.id})
  }

  // Disconnects transactions |vtx| - 1 down to k.
  function DisconnectTxs(m: Index, b: Block, k: nat): Option<Index>
    requires k <= |b.vtx|
    decreases |b.vtx| - k
  {
    if k == |b.vtx| then Some(m) else
    match DisconnectTxs(m, b, k + 1)
    case None => None
    case Some(m') => DisconnectTx(m', b.vtx[k])
  }

  // --- marking and clearing outputs

  ghost predicate EntryMarkedAs(h: Hash, e: TxIndex, e': TxIndex, vin: seq<OutPoint>, k: nat, mark: Option<TxPos>)
    requires k <= |vin|
  {
    && e'.pos == e.pos
    && |e'.spent| == |e.spent|
    && forall n | 0 <= n < |e.spent| :: e'.spent[n] == if OutPoint(h, n) in vin[..k] then mark else e.spent[n]
  }

  // m' differs from m exactly in the marks of the first k inputs.
  ghost predicate MarkedAs(m: Index, m': Index, vin: seq<OutPoint>, k: nat, mark: Option<TxPos>)
    requires k <= |vin|
  {
    m'.Keys == m.Keys && forall h | h in m :: EntryMarkedAs(h, m[h], m'[h], vin, k, mark)
  }

  lemma MarkedHasOutput(m: Index, m': Index, vin: seq<OutPoint>, k: nat, mark: Option<TxPos>, o: OutPoint)
    requires k <= |vin| && MarkedAs(m, m', vin, k, mark)
    ensures HasOutput(m', o) <==> HasOutput(m, o)
  {
    assert o.hash in m ==> EntryMarkedAs(o.hash, m[o.hash], m'[o.hash], vin, k, mark);
  }

  lemma MarkOneMore(m: Index, m': Index, vin: seq<OutPoint>, k: nat, mark: Option<TxPos>)
    requires k < |vin|
    requires MarkedAs(m, m', vin, k, mark)
    requires HasOutput(m', vin[k])
    ensures MarkedAs(m, SetSpent(m', vin[k], mark), vin, k + 1, mark)
  {
    assert vin[..k + 1] == vin[..k] + [vin[k]];
    forall h | h in m ensures EntryMarkedAs(h, m[h], SetSpent(m', vin[k], mark)[h], vin, k + 1, mark) {
      assert EntryMarkedAs(h, m[h], m'[h], vin, k, mark);
    }
  }

  lemma {:induction false} SpendMarks(m: Index, vin: seq<OutPoint>, k: nat, pos: TxPos)
    requires k <= |vin|
    requires SpendInputs(m, vin, k, pos).Some?
    ensures MarkedAs(m, SpendInputs(m, vin, k, pos).value, vin, k, Some(pos))
  {
    if k > 0 {
      SpendMarks(m, vin, k - 1, pos);
      MarkOneMore(m, SpendInputs(m, vin, k - 1, pos).value, vin, k - 1, Some(pos));
    }
  }

  // Only unspent outputs are marked.
  lemma {:induction false} SpendsUnspent(m: Index, vin: seq<OutPoint>, k: nat, pos: TxPos, i: nat)
    requires i < k <= |vin|
    requires SpendInputs(m, vin, k, pos).Some?
    ensures HasOutput(m, vin[i]) && m[vin[i].hash].spent[vin[i].n].None?
  {
    if i < k - 1 {
      SpendsUnspent(m, vin, k - 1, pos, i);
    } else {
      var m', o := SpendInputs(m, vin, i, pos).value, vin[i];
      SpendMarks(m, vin, i, pos);
      MarkedHasOutput(m, m', vin, i, Some(pos), o);
      assert EntryMarkedAs(o.hash, m[o.hash], m'[o.hash], vin, i, Some(pos));
    }
  }

  ghost predicate AllPresent(m: Index, vin: seq<OutPoint>, k: nat)
    requires k <= |vin|
  {
    k == 0 || (AllPresent(m, vin, k - 1) && HasOutput(m, vin[k - 1]))
  }

  lemma {:induction false} SpentArePresent(m: Index, vin: seq<OutPoint>, k: nat, pos: TxPos, j: nat)
    requires j <= k <= |vin|
    requires SpendInputs(m, vin, k, pos).Some?
    ensures AllPresent(SpendInputs(m, vin, k, pos).value, vin, j)
  {
    if j > 0 {
      SpentArePresent(m, vin, k, pos, j - 1);
      SpendsUnspent(m, vin, k, pos, j - 1);
      SpendMarks(m, vin, k, pos);
      MarkedHasOutput(m, SpendInputs(m, vin, k, pos).value, vin, k, Some(pos), vin[j - 1]);
    }
  }

  lemma {:induction false} UnspendMarks(m: Index, vin: seq<OutPoint>, k: nat)
    requires k <= |vin|
    requires AllPresent(m, vin, k)
    ensures UnspendInputs(m, vin, k).Some?
    ensures MarkedAs(m, UnspendInputs(m, vin, k).value, vin, k, None)
  {
    if k > 0 {
      UnspendMarks(m, vin, k - 1);
      var m' := UnspendInputs(m, vin, k - 1).value;
      MarkedHasOutput(m, m', vin, k - 1, None, vin[k - 1]);
      MarkOneMore(m, m', vin, k - 1, None);
    }
  }

  // --- one transaction

  lemma ConnectTxKeys(disk: Disk, t: Tally, tx: Tx, pos: TxPos)
    requires ConnectTx(disk, t, tx, pos).Some?
    ensures ConnectTx(disk, t, tx, pos).value.index.Keys == t.index.Keys + {tx.id}
  {
    if !tx.IsCoinBase() {
      SpendMarks(t.index, tx.vin, |tx.vin|, pos);
    }
  }

  // Clearing what was marked leaves the marks as they were, because only
  // unspent outputs are marked.
  lemma UnmarkMarked(m: Index, spent: Index, cleared: Index, vin: seq<OutPoint>, mark: Option<TxPos>)
    requires MarkedAs(m, spent, vin, |vin|, mark)
    requires MarkedAs(spent, cleared, vin, |vin|, None)
    requires forall i | 0 <= i < |vin| :: HasOutput(m, vin[i]) && m[vin[i].hash].spent[vin[i].n].None?
    ensures cleared == m
  {
    forall h | h in m ensures cleared[h] == m[h] {
      assert EntryMarkedAs(h, m[h], spent[h], vin, |vin|, mark);
      assert EntryMarkedAs(h, spent[h], cleared[h], vin, |vin|, None);
      forall n | 0 <= n < |m[h].spent| ensures cleared[h].spent[n] == m[h].spent[n] {
        if OutPoint(h, n) in vin[..|vin|] {
          var i :| 0 <= i < |vin| && vin[i] == OutPoint(h, n);
        }
      }
      assert cleared[h].spent == m[h].spent;
    }
  }

  // An entry that no input names does not take part in the clearing.
  lemma {:induction false} UnspendFrame(m: Index, h: Hash, e: TxIndex, vin: seq<OutPoint>, k: nat)
    requires k <= |vin|
    requires forall i | 0 <= i < k :: vin[i].hash != h
    requires UnspendInputs(m, vin, k).Some?
    ensures UnspendInputs(m[h := e], vin, k) == Some(UnspendInputs(m, vin, k).value[h := e])
  {
    if k > 0 {
      UnspendFrame(m, h, e, vin, k - 1);
      var m' := UnspendInputs(m, vin, k - 1).value;
      var o := vin[k - 1];
      assert SetSpent(m'[h := e], o, None) == SetSpent(m', o, None)[h := e];
    }
  }

  lemma DisconnectUndoesTx(disk: Disk, t: Tally, tx: Tx, pos: TxPos)
    requires ConnectTx(disk, t, tx, pos).Some?
    requires tx.id !in t.index
    ensures DisconnectTx(ConnectTx(disk, t, tx, pos).value.index, tx) == Some(t.index)
  {
    var m, entry := t.index, Unspent(pos, |tx.vout|);
    if tx.IsCoinBase() {
      assert m[tx.id := entry] - {tx.id} == m;
    } else {
      SpendMarks(m, tx.vin, |tx.vin|, pos);
      var spent := SpendInputs(m, tx.vin, |tx.vin|, pos).value;
      forall i | 0 <= i < |tx.vin|
        ensures HasOutput(m, tx.vin[i]) && m[tx.vin[i].hash].spent[tx.vin[i].n].None?
      {
        SpendsUnspent(m, tx.vin, |tx.vin|, pos, i);
      }
      SpentArePresent(m, tx.vin, |tx.vin|, pos, |tx.vin|);
      UnspendMarks(spent, tx.vin, |tx.vin|);
      UnmarkMarked(m, spent, UnspendInputs(spent, tx.vin, |tx.vin|).value, tx.vin, Some(pos));
      UnspendFrame(spent, tx.id, entry, tx.vin, |tx.vin|);
      assert m[tx.id := entry] - {tx.id} == m;
    }
  }

  lemma DisconnectNeverAdds(m: Index, tx: Tx)
    requires DisconnectTx(m, tx).Some?
    ensures DisconnectTx(m, tx).value.Keys <= m.Keys - {tx.id}
  {
    if !tx.IsCoinBase() {
      UnspendKeys(m, tx.vin, |tx.vin|);
    }
  }

  lemma {:induction false} UnspendKeys(m: Index, vin: seq<OutPoint>, k: nat)
    requires k <= |vin|
    requires UnspendInputs(m, vin, k).Some?
    ensures UnspendInputs(m, vin, k).value.Keys == m.Keys
  {
    if k > 0 {
      UnspendKeys(m, vin, k - 1);
    }
  }

  // --- one block

  lemma {:induction false} ConnectTxsKeys(disk: Disk, m: Index, b: Block, at: FilePos, k: nat)
    requires k <= |b.vtx|
    requires ConnectTxs(disk, m, b, at, k).Some?
    ensures ConnectTxs(disk, m, b, at, k).value.index.Keys == m.Keys + FirstIds(b, k)
  {
    hide FirstIds, ConnectTx;
    if k == 0 {
      NoneYet(b);
    } else {
      OneMore(b, k - 1);
      ConnectTxsKeys(disk, m, b, at, k - 1);
      ConnectTxKeys(disk, ConnectTxs(disk, m, b, at, k - 1).value, b.vtx[k - 1], PosOf(b, at, k - 1));
    }
  }

  // The first k transactions of a connected block have connected too.
  lemma {:induction false} ConnectTxsPrefix(disk: Disk, m: Index, b: Block, at: FilePos, j: nat, k: nat)
    requires j <= k <= |b.vtx|
    requires ConnectTxs(disk, m, b, at, k).Some?
    ensures ConnectTxs(disk, m, b, at, j).Some?
  {
    if j < k {
      ConnectTxsPrefix(disk, m, b, at, j, k - 1);
    }
  }

  lemma {:induction false} DisconnectUndoesTxs(disk: Disk, m: Index, b: Block, at: FilePos, k: nat)
    requires k <= |b.vtx|
    requires DistinctIds(b)
    requires m.Keys !! b.Ids()
    requires ConnectTxs(disk, m, b, at, |b.vtx|).Some?
    ensures ConnectTxs(disk, m, b, at, k).Some?
    ensures DisconnectTxs(ConnectTxs(disk, m, b, at, |b.vtx|).value.index, b, k)
         == Some(ConnectTxs(disk, m, b, at, k).value.index)
    decreases |b.vtx| - k
  {
    if k < |b.vtx| {
      DisconnectUndoesTxs(disk, m, b, at, k + 1);
      ConnectTxsPrefix(disk, m, b, at, k, k + 1);
      ConnectTxsKeys(disk, m, b, at, k);
      assert b.vtx[k].id in b.Ids();
      DisconnectUndoesTx(disk, ConnectTxs(disk, m, b, at, k).value, b.vtx[k], PosOf(b, at, k));
    }
  }

  lemma {:induction false} DisconnectErases(m: Index, b: Block, k: nat, j: nat)
    requires k <= j < |b.vtx|
    requires DisconnectTxs(m, b, k).Some?
    ensures b.vtx[j].id !in DisconnectTxs(m, b, k).value
    decreases |b.vtx| - k
  {
    DisconnectNeverAdds(DisconnectTxs(m, b, k + 1).value, b.vtx[k]);
    if k < j {
      DisconnectErases(m, b, k + 1, j);
    }
  }

  /** Disconnecting a block that has just been connected restores the index
      exactly when none of its transactions was indexed before, spends inside
      the block included.  The other case arises because a fully spent
      transaction may be overwritten: its old entry is then erased for good. */
  lemma DisconnectInvertsConnect(disk: Disk, m: Index, b: Block, at: FilePos)
    requires DistinctIds(b)
    requires ConnectTxs(disk, m, b, at, |b.vtx|).Some?
    ensures DisconnectTxs(ConnectTxs(disk, m, b, at, |b.vtx|).value.index, b, 0) == Some(m)
       <==> m.Keys !! b.Ids()
  {
    var after := ConnectTxs(disk, m, b, at, |b.vtx|).value.index;
    if m.Keys !! b.Ids() {
      DisconnectUndoesTxs(disk, m, b, at, 0);
    } else if DisconnectTxs(after, b, 0) == Some(m) {
      var h :| h in m.Keys && h in b.Ids();
      var j :| 0 <= j < |b.vtx| && b.vtx[j].id == h;
      DisconnectErases(after, b, 0, j);
      assert false;
    }
  }
}

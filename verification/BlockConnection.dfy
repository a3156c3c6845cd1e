/**
 ConnectBlock and DisconnectBlock as the loops over the transaction database
 that they are, each proved against its meaning on plain maps.
 */
module BlockConnection {
  import opened Basics
  import opened Transactions
  import opened MarkedOutputs
  import opened Ledger

  // Checks that can only reject and that depend on signatures, clocks, ages or
  // script costs: one arbitrary verdict per block, per input and per coinstake
  datatype Rules = Rules(block: Block -> bool, input: (Tx, nat) -> bool, stake: Tx -> bool)

  predicate InputsAllowed(rules: Rules, tx: Tx, k: nat) {
    forall i | 0 <= i < k :: rules.input(tx, i)
  }

  predicate TxAllowed(rules: Rules, tx: Tx) {
    tx.IsCoinBase() || (InputsAllowed(rules, tx, |tx.vin|) && (tx.IsCoinStake() ==> rules.stake(tx)))
  }

  predicate TxsAllowed(rules: Rules, b: Block, k: nat)
    requires k <= |b.vtx|
  {
    forall i | 0 <= i < k :: TxAllowed(rules, b.vtx[i])
  }

  predicate Allowed(rules: Rules, b: Block) {
    rules.block(b) && TxsAllowed(rules, b, |b.vtx|)
  }

  // CTxDB with at most one open database transaction
  class TxDb {
    var index: Index
    var saved: Option<Index>

    constructor ()
      ensures index == map[] && saved == None
    {
      index, saved := map[], None;
    }

    method TxnBegin()
      modifies this`saved
      ensures saved == Some(index)
    {
      saved := Some(index);
    }

    method TxnCommit()
      modifies this`saved
      ensures saved == None
    {
      saved := None;
    }

    method TxnAbort()
      modifies this
      ensures saved == None
      ensures index == match old(saved) case None => old(index) case Some(m) => m
    {
      if saved.Some? {
        index, saved := saved.value, None;
      }
    }
  }

  datatype Prev = Prev(index: TxIndex, tx: Tx)

  // What FetchInputs returns for the index m
  ghost predicate Fetched(disk: Disk, m: Index, inputs: map<Hash, Prev>) {
    forall h | h in inputs :: h in m && inputs[h] == Prev(m[h], disk(m[h].pos))
  }

  ghost predicate AllFetched(tx: Tx, inputs: map<Hash, Prev>) {
    forall i | 0 <= i < |tx.vin| :: tx.vin[i].hash in inputs
  }

  method FetchInputs(disk: Disk, txdb: TxDb, queued: Index, tx: Tx) returns (ok: bool, inputs: map<Hash, Prev>)
    ensures ok <==> tx.IsCoinBase() || InputsPresent(disk, txdb.index + queued, tx)
    ensures ok ==> Fetched(disk, txdb.index + queued, inputs)
    ensures ok && !tx.IsCoinBase() ==> AllFetched(tx, inputs)
  {
    if tx.IsCoinBase() {
      return true, map[];
    }
    ghost var m := txdb.index + queued;
    inputs := map[];
    for i := 0 to |tx.vin|
      invariant Fetched(disk, m, inputs)
      invariant forall j | 0 <= j < i :: tx.vin[j].hash in inputs
    {
      var h := tx.vin[i].hash;
      if h !in inputs {
        if h in queued {
          inputs := inputs[h := Prev(queued[h], disk(queued[h].pos))];
        } else if h in txdb.index {
          inputs := inputs[h := Prev(txdb.index[h], disk(txdb.index[h].pos))];
        } else {
          assert !HasOutput(m, tx.vin[i]);
          return false, inputs;
        }
      }
    }
    for i := 0 to |tx.vin|
      invariant forall j | 0 <= j < i ::
        HasOutput(m, tx.vin[j]) && tx.vin[j].n < |disk(m[tx.vin[j].hash].pos).vout|
    {
      var o := tx.vin[i];
      if o.n >= |inputs[o.hash].tx.vout| || o.n >= |inputs[o.hash].index.spent| {
        return false, inputs;
      }
    }
    return true, inputs;
  }

  method GetValueIn(disk: Disk, ghost m: Index, tx: Tx, inputs: map<Hash, Prev>) returns (value: int)
    requires tx.IsCoinBase() || (InputsPresent(disk, m, tx) && AllFetched(tx, inputs))
    requires Fetched(disk, m, inputs)
    ensures value == TxValueIn(disk, m, tx)
  {
    if tx.IsCoinBase() {
      return 0;
    }
    value := 0;
    for i := 0 to |tx.vin|
      invariant value == SumIn(disk, m, tx.vin, i)
    {
      value := value + inputs[tx.vin[i].hash].tx.vout[tx.vin[i].n].value;
    }
  }

  // The inexpensive checks of ConnectInputs
  method CheckInputs(disk: Disk, ghost m: Index, tx: Tx, inputs: map<Hash, Prev>) returns (ok: bool, value: int)
    requires InputsPresent(disk, m, tx) && Fetched(disk, m, inputs) && AllFetched(tx, inputs)
    ensures ok <==> InputsInOrder(disk, m, tx, |tx.vin|)
    ensures ok ==> value == SumIn(disk, m, tx.vin, |tx.vin|)
  {
    value := 0;
    for i := 0 to |tx.vin|
      invariant value == SumIn(disk, m, tx.vin, i)
      invariant InputsInOrder(disk, m, tx, i)
    {
      var o := tx.vin[i];
      var prev := inputs[o.hash].tx;
      if prev.time > tx.time {
        assert !InputInOrder(disk, m, tx, i);
        return false, value;
      }
      value := value + prev.vout[o.n].value;
      assert value == SumIn(disk, m, tx.vin, i + 1);
      assert InputInOrder(disk, m, tx, i) <==> MoneyRange(prev.vout[o.n].value) && MoneyRange(value);
      if !MoneyRange(prev.vout[o.n].value) || !MoneyRange(value) {
        return false, value;
      }
    }
    return true, value;
  }

  lemma {:induction false} SpendFailsAt(m: Index, vin: seq<OutPoint>, i: nat, k: nat, pos: TxPos)
    requires i < k <= |vin|
    requires SpendInputs(m, vin, i + 1, pos).None?
    ensures SpendInputs(m, vin, k, pos).None?
  {
    if i + 1 < k {
      SpendFailsAt(m, vin, i, k - 1, pos);
    }
  }

  // The private copies of the entries agree with the index as marked so far.
  ghost predicate Agree(m: Index, inputs: map<Hash, Prev>) {
    forall h | h in inputs :: h in m && inputs[h].index == m[h]
  }

  lemma SameEntry(m: Index, inputs: map<Hash, Prev>, h: Hash)
    requires Agree(m, inputs) && h in inputs
    ensures h in m && inputs[h].index == m[h]
  {}

  lemma WriteBack(base: Index, queued: Index, inputs: map<Hash, Prev>, h: Hash, e: TxIndex)
    requires h in inputs && Agree(base + queued, inputs)
    ensures base + queued[h := e] == (base + queued)[h := e]
    ensures Agree((base + queued)[h := e], inputs[h := inputs[h].(index := e)])
  {}

  lemma KeepsOutputs(m: Index, vin: seq<OutPoint>, k: nat, pos: TxPos, o: OutPoint)
    requires k <= |vin| && HasOutput(m, o)
    requires SpendInputs(m, vin, k, pos).Some?
    ensures HasOutput(SpendInputs(m, vin, k, pos).value, o)
  {
    SpendMarks(m, vin, k, pos);
    MarkedHasOutput(m, SpendInputs(m, vin, k, pos).value, vin, k, Some(pos), o);
  }

  // The double-spend check and the marking, on private copies of the entries
  // that are written back to the queued changes one by one
  method MarkInputs(rules: Rules, ghost base: Index, ghost m: Index, tx: Tx, pos: TxPos, fetched: map<Hash, Prev>, pool: Index)
    returns (ok: bool, queued: Index)
    requires m == base + pool && Agree(m, fetched)
    requires forall i | 0 <= i < |tx.vin| :: tx.vin[i].hash in fetched && HasOutput(m, tx.vin[i])
    ensures ok <==> InputsAllowed(rules, tx, |tx.vin|) && SpendInputs(m, tx.vin, |tx.vin|, pos).Some?
    ensures ok ==> Some(base + queued) == SpendInputs(m, tx.vin, |tx.vin|, pos)
  {
    hide Agree;
    ghost var cur := m;
    var inputs := fetched;
    queued := pool;
    for i := 0 to |tx.vin|
      invariant InputsAllowed(rules, tx, i)
      invariant cur == base + queued
      invariant SpendInputs(m, tx.vin, i, pos) == Some(cur)
      invariant inputs.Keys == fetched.Keys && Agree(cur, inputs)
    {
      var o := tx.vin[i];
      var txindex := inputs[o.hash].index;
      KeepsOutputs(m, tx.vin, i, pos, o);
      SameEntry(cur, inputs, o.hash);
      if !txindex.spent[o.n].None? {
        SpendFailsAt(m, tx.vin, i, |tx.vin|, pos);
        return false, queued;
      }
      if !rules.input(tx, i) {
        return false, queued;
      }
      txindex := txindex.(spent := txindex.spent[o.n := Some(pos)]);
      WriteBack(base, queued, inputs, o.hash, txindex);
      inputs := inputs[o.hash := inputs[o.hash].(index := txindex)];
      queued := queued[o.hash := txindex];
      cur := cur[o.hash := txindex];
    }
    return true, queued;
  }

  method ConnectInputs(rules: Rules, disk: Disk, ghost base: Index, tx: Tx, pos: TxPos, inputs: map<Hash, Prev>, pool: Index)
    returns (ok: bool, queued: Index)
    requires tx.IsCoinBase() || (InputsPresent(disk, base + pool, tx) && AllFetched(tx, inputs))
    requires Fetched(disk, base + pool, inputs)
    ensures ok <==> TxAllowed(rules, tx) && Connects(disk, base + pool, tx, pos)
    ensures ok ==> base + queued == Spent(disk, base + pool, tx, pos)
  {
    if tx.IsCoinBase() {
      return true, pool;
    }
    var value;
    ok, value := CheckInputs(disk, base + pool, tx, inputs);
    if !ok {
      return false, pool;
    }
    ok, queued := MarkInputs(rules, base, base + pool, tx, pos, inputs, pool);
    if ok {
      ok := if tx.IsCoinStake() then rules.stake(tx) else value >= tx.ValueOut();
    }
  }

  // BIP 30: a transaction of the block that is indexed must be fully spent.
  method MayOverwrite(txdb: TxDb, b: Block) returns (ok: bool)
    ensures ok <==> OverwritesOnlySpent(txdb.index, b, 0)
  {
    for k := 0 to |b.vtx|
      invariant forall j | 0 <= j < k && b.vtx[j].id in txdb.index :: FullySpent(txdb.index[b.vtx[j].id])
    {
      if b.vtx[k].id in txdb.index {
        var old' := txdb.index[b.vtx[k].id];
        for n := 0 to |old'.spent|
          invariant forall j | 0 <= j < n :: old'.spent[j].Some?
        {
          if old'.spent[n].None? {
            return false;
          }
        }
      }
    }
    return true;
  }

  // One turn of the loop over vtx: txdb is only read.
  method QueueTx(rules: Rules, disk: Disk, txdb: TxDb, tx: Tx, pos: TxPos, pool: Index, valueIn: int, valueOut: int, fees: int)
    returns (ok: bool, queued: Index, valueIn': int, valueOut': int, fees': int)
    ensures var t := ConnectTx(disk, Tally(txdb.index + pool, valueIn, valueOut, fees), tx, pos);
      && (ok <==> TxAllowed(rules, tx) && t.Some?)
      && (ok ==> t == Some(Tally(txdb.index + queued, valueIn', valueOut', fees')))
  {
    hide InputsPresent, InputsInOrder, InputsAllowed, SpendInputs, SumIn, Fetched, AllFetched, SumOut;
    ok, queued, valueIn', valueOut', fees' := true, pool, valueIn, valueOut + tx.ValueOut(), fees;
    if !tx.IsCoinBase() {
      var inputs;
      ok, inputs := FetchInputs(disk, txdb, pool, tx);
      if !ok {
        return;
      }
      var txIn := GetValueIn(disk, txdb.index + pool, tx, inputs);
      valueIn' := valueIn + txIn;
      if !tx.IsCoinStake() {
        fees' := fees + txIn - tx.ValueOut();
      }
      ok, queued := ConnectInputs(rules, disk, txdb.index, tx, pos, inputs, pool);
      if !ok {
        return;
      }
    }
    ghost var spent := txdb.index + queued;
    queued := queued[tx.id := Unspent(pos, |tx.vout|)];
    assert txdb.index + queued == spent[tx.id := Unspent(pos, |tx.vout|)];
  }

  method QueueBlock(rules: Rules, disk: Disk, txdb: TxDb, b: Block, at: FilePos)
    returns (ok: bool, queued: Index, valueIn: int, valueOut: int, fees: int)
    ensures var t := ConnectTxs(disk, txdb.index, b, at, |b.vtx|);
      && (ok <==> TxsAllowed(rules, b, |b.vtx|) && t.Some?)
      && (ok ==> t == Some(Tally(txdb.index + queued, valueIn, valueOut, fees)))
  {
    ok, queued, valueIn, valueOut, fees := true, map[], 0, 0, 0;
    var txPos := at.blockPos + b.headerSize;
    assert txdb.index + queued == txdb.index;
    for k := 0 to |b.vtx|
      invariant ok && txPos == TxOffset(b, at, k)
      invariant TxsAllowed(rules, b, k)
      invariant ConnectTxs(disk, txdb.index, b, at, k) == Some(Tally(txdb.index + queued, valueIn, valueOut, fees))
    {
      ok, queued, valueIn, valueOut, fees :=
        QueueTx(rules, disk, txdb, b.vtx[k], TxPos(at, txPos), queued, valueIn, valueOut, fees);
      if !ok {
        if TxAllowed(rules, b.vtx[k]) {
          NothingAfter(disk, txdb.index, b, at, k);
        }
        return;
      }
      txPos := txPos + b.vtx[k].size;
    }
  }

  // Once a transaction fails, so does the block.
  lemma NothingAfter(disk: Disk, m: Index, b: Block, at: FilePos, k: nat)
    requires k < |b.vtx|
    requires ConnectTxs(disk, m, b, at, k + 1).None?
    ensures ConnectTxs(disk, m, b, at, |b.vtx|).None?
  {
    if ConnectTxs(disk, m, b, at, |b.vtx|).Some? {
      ConnectTxsPrefix(disk, m, b, at, k + 1, |b.vtx|);
    }
  }

  method ConnectBlock(rules: Rules, disk: Disk, txdb: TxDb, prev: Tip, b: Block, at: FilePos) returns (r: Option<Stats>)
    modifies txdb`index
    ensures r.Some? <==> Allowed(rules, b) && ApplyBlock(disk, State(old(txdb.index), prev), b, at).Some?
    ensures r.Some? ==>
      State(txdb.index, Tip(NextPowHeight(prev.powHeight, b), r.value))
      == ApplyBlock(disk, State(old(txdb.index), prev), b, at).value
    ensures r.None? ==> txdb.index == old(txdb.index)
  {
    var placed := CheckBlock(b);
    if !placed || !rules.block(b) {
      return None;
    }
    var overwrites := MayOverwrite(txdb, b);
    if !overwrites {
      return None;
    }
    var ok, queued, valueIn, valueOut, fees := QueueBlock(rules, disk, txdb, b, at);
    if !ok {
      return None;
    }
    var limit := fees + if b.IsProofOfStake() then 0 else NextProofOfWorkReward(Some(prev), true);
    if b.vtx[0].ValueOut() > limit {
      return None;
    }
    var delta := valueOut - valueIn;
    var debt := prev.stats.posDebt;
    if b.IsProofOfStake() {
      debt := debt + delta;
    } else {
      debt := debt - (NextProofOfWorkReward(Some(prev), false) - (b.vtx[0].ValueOut() - fees));
    }
    r := Some(Stats(delta + fees, prev.stats.supply + delta,
                    prev.stats.posTotalMint + (if b.IsProofOfStake() then delta else 0), debt));
    txdb.index := txdb.index + queued;
  }

  lemma {:induction false} UnspendPrefix(m: Index, vin: seq<OutPoint>, j: nat, k: nat)
    requires j <= k <= |vin|
    requires UnspendInputs(m, vin, k).Some?
    ensures UnspendInputs(m, vin, j).Some?
  {
    if j < k {
      UnspendPrefix(m, vin, j, k - 1);
    }
  }

  // Writes as it goes: on failure txdb may be left half changed.
  method DisconnectInputs(txdb: TxDb, tx: Tx) returns (ok: bool)
    modifies txdb`index
    ensures ok <==> DisconnectTx(old(txdb.index), tx).Some?
    ensures ok ==> Some(txdb.index) == DisconnectTx(old(txdb.index), tx)
  {
    if !tx.IsCoinBase() {
      for i := 0 to |tx.vin|
        invariant UnspendInputs(old(txdb.index), tx.vin, i) == Some(txdb.index)
      {
        var o := tx.vin[i];
        if o.hash !in txdb.index || o.n >= |txdb.index[o.hash].spent| {
          if UnspendInputs(old(txdb.index), tx.vin, |tx.vin|).Some? {
            UnspendPrefix(old(txdb.index), tx.vin, i + 1, |tx.vin|);
          }
          return false;
        }
        var txindex := txdb.index[o.hash];
        txindex := txindex.(spent := txindex.spent[o.n := None]);
        txdb.index := txdb.index[o.hash := txindex];
      }
    }
    txdb.index := txdb.index - {tx.id};
    return true;
  }

  lemma {:induction false} DisconnectNone(m: Index, b: Block, j: nat, k: nat)
    requires j <= k <= |b.vtx|
    requires DisconnectTxs(m, b, k).None?
    ensures DisconnectTxs(m, b, j).None?
    decreases k - j
  {
    if j < k {
      DisconnectNone(m, b, j + 1, k);
    }
  }

  method DisconnectBlock(txdb: TxDb, b: Block) returns (ok: bool)
    modifies txdb`index
    ensures ok <==> DisconnectTxs(old(txdb.index), b, 0).Some?
    ensures ok ==> Some(txdb.index) == DisconnectTxs(old(txdb.index), b, 0)
  {
    for i := |b.vtx| downto 0
      invariant DisconnectTxs(old(txdb.index), b, i) == Some(txdb.index)
    {
      ok := DisconnectInputs(txdb, b.vtx[i]);
      if !ok {
        DisconnectNone(old(txdb.index), b, 0, i);
        return false;
      }
    }
    return true;
  }
}

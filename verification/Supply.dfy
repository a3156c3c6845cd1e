/**
 Conservation of money along every chain that replays from genesis.
 */
module Supply {
  import opened Basics
  import opened Transactions
  import opened MarkedOutputs
  import opened Ledger

  // --- supply, stake debt and the subsidy schedule

  function SubsidySum(n: nat): int {
    if n == 0 then 0 else SubsidySum(n - 1) + FullSubsidy(n)
  }

  lemma SubsidyNotNegative(powHeight: nat)
    requires powHeight > 0
    ensures FullSubsidy(powHeight) >= 0
  {
    assert (powHeight - 1) * (powHeight - 1) >= 0;
    assert 399 * COIN * (powHeight - 1) * (powHeight - 1) >= 0;
  }

  // In a proof-of-work block everything but the coinbase is accounted for by fees.
  lemma {:induction false} FeesCancel(disk: Disk, m: Index, b: Block, at: FilePos, k: nat)
    requires 1 <= k <= |b.vtx|
    requires WellPlaced(b) && !b.IsProofOfStake()
    requires ConnectTxs(disk, m, b, at, k).Some?
    ensures var t := ConnectTxs(disk, m, b, at, k).value;
      t.valueOut - t.valueIn == b.vtx[0].ValueOut() - t.fees
  {
    if k > 1 {
      FeesCancel(disk, m, b, at, k - 1);
    } else {
      assert ConnectTxs(disk, m, b, at, 0) == Some(Tally(m, 0, 0, 0));
    }
  }

  lemma BlockConserves(disk: Disk, s: State, b: Block, at: FilePos)
    requires ApplyBlock(disk, s, b, at).Some?
    ensures var s' := ApplyBlock(disk, s, b, at).value;
      && s'.tip.powHeight == NextPowHeight(s.tip.powHeight, b)
      && s'.tip.stats.supply - s'.tip.stats.posDebt
         == s.tip.stats.supply - s.tip.stats.posDebt + if b.IsProofOfStake() then 0 else FullSubsidy(s.tip.powHeight + 1)
  {
    hide FullSubsidy, ConnectTx, OverwritesOnlySpent;
    if !b.IsProofOfStake() {
      FeesCancel(disk, s.index, b, at, |b.vtx|);
    }
  }

  /** On every connected chain, money supply less stake debt is the sum of the
      full subsidies, whatever the mix of block types and however little the
      miners claim. */
  lemma {:induction false} SupplyIsSubsidyPlusDebt(disk: Disk, chain: seq<Stored>)
    requires Replay(disk, chain).Some?
    ensures var tip := Replay(disk, chain).value.tip;
      tip.stats.supply - tip.stats.posDebt == SubsidySum(tip.powHeight)
  {
    hide ApplyBlock, FullSubsidy;
    if chain != [] {
      var before, last := chain[..|chain| - 1], chain[|chain| - 1];
      SupplyIsSubsidyPlusDebt(disk, before);
      BlockConserves(disk, Replay(disk, before).value, last.block, last.at);
    }
  }

  // --- the emission cap

  const CAP := 2 * MAX_MINT_PROOF_OF_WORK * LEVEL_HEIGHT
  const TAIL := 400 * COIN * LEVEL_HEIGHT * LEVEL_HEIGHT

  lemma CapValue()
    ensures CAP == 21_024_000 * COIN
  {}

  lemma {:induction false} LevelBound(n: nat)
    ensures SubsidySum(n) <= MAX_MINT_PROOF_OF_WORK * n
  {
    if n > 0 {
      LevelBound(n - 1);
    }
  }

  lemma SubsidyTimesSquare(n: nat)
    requires n >= 576
    ensures FullSubsidy(n) * (n * n) <= TAIL
    ensures FullSubsidy(n) >= 0
  {
    var q := TAIL / (n * n);
    assert q * (n * n) <= TAIL;
    assert 0 <= FullSubsidy(n) <= q;
    MulMono(FullSubsidy(n), q, n * n);
  }

  lemma MulMono(a: int, b: int, c: nat)
    requires a <= b
    ensures a * c <= b * c
  {}

  // 1/n^2 <= 1/(n-1) - 1/n, multiplied out
  lemma Telescope(room: int, f: int, n: int)
    requires n >= 2 && f >= 0
    requires (n - 1) * room >= TAIL
    requires f * (n * n) <= TAIL
    ensures n * (room - f) >= TAIL
  {
    // n * (n-1) * (n*(room-f)) = n*n*((n-1)*room) - (n-1)*(n*n*f) >= (n*n - (n-1)) * TAIL >= n*(n-1)*TAIL
    var slack := (n - 1) * room - TAIL;
    var short := TAIL - f * (n * n);
    assert n * n * slack >= 0;
    assert (n - 1) * short >= 0;
    calc {
      n * (n - 1) * (n * (room - f));
      n * n * ((n - 1) * room) - (n - 1) * (f * (n * n));
      n * n * (TAIL + slack) - (n - 1) * (TAIL - short);
      (n * n - n + 1) * TAIL + n * n * slack + (n - 1) * short;
    >=
      (n * n - n + 1) * TAIL;
    >=
      n * (n - 1) * TAIL;
    }
    CancelFactor(n * (n - 1), TAIL, n * (room - f));
  }

  lemma CancelFactor(c: int, a: int, b: int)
    requires c > 0 && c * a <= c * b
    ensures a <= b
  {
    assert c * (b - a) >= 0;
  }

  lemma {:induction false} TailBound(n: nat)
    requires n >= LEVEL_HEIGHT
    ensures n * (CAP - SubsidySum(n)) >= TAIL
  {
    if n == LEVEL_HEIGHT {
      LevelBound(n);
    } else {
      TailBound(n - 1);
      SubsidyTimesSquare(n);
      Telescope(CAP - SubsidySum(n - 1), FullSubsidy(n), n);
    }
  }

  /** No number of proof-of-work blocks mints more than 21,024,000 coins. */
  lemma EmissionCap(n: nat)
    ensures SubsidySum(n) <= CAP == 21_024_000 * COIN
  {
    CapValue();
    if n <= LEVEL_HEIGHT {
      LevelBound(n);
    } else {
      TailBound(n);
      CancelFactor(n, 0, CAP - SubsidySum(n));
    }
  }

  /** A proof-of-work block pays off stake debt and never creates any. */
  lemma WorkPaysDebt(disk: Disk, s: State, b: Block, at: FilePos)
    requires ApplyBlock(disk, s, b, at).Some?
    requires !b.IsProofOfStake()
    ensures var debt, debt' := s.tip.stats.posDebt, ApplyBlock(disk, s, b, at).value.tip.stats.posDebt;
      var full := FullSubsidy(s.tip.powHeight + 1);
      && (debt > 0 ==> debt - debt' >= if debt <= full - full / 4 then debt else full - full / 4)
      && (debt <= 0 ==> debt' <= 0)
  {
    hide FullSubsidy, ConnectTxs, WellPlaced, OverwritesOnlySpent;
    SubsidyNotNegative(s.tip.powHeight + 1);
  }

  /** Supply is capped up to outstanding stake debt. */
  lemma SupplyCap(disk: Disk, chain: seq<Stored>)
    requires Replay(disk, chain).Some?
    ensures var stats := Replay(disk, chain).value.tip.stats;
      stats.supply <= 21_024_000 * COIN + if stats.posDebt > 0 then stats.posDebt else 0
  {
    SupplyIsSubsidyPlusDebt(disk, chain);
    EmissionCap(Replay(disk, chain).value.tip.powHeight);
  }

  // --- supply and unspent outputs

  // The value of the first k outputs of an entry that are not spent
  function EntryValue(disk: Disk, e: TxIndex, k: nat): int
    requires k <= |e.spent|
  {
    if k == 0 then 0 else
    EntryValue(disk, e, k - 1) +
      if e.spent[k - 1].None? && k - 1 < |disk(e.pos).vout| then disk(e.pos).vout[k - 1].value else 0
  }

  ghost function UnspentTotal(disk: Disk, m: Index): int {
    if m == map[] then 0 else
    var h :| h in m;
    EntryValue(disk, m[h], |m[h].spent|) + UnspentTotal(disk, m - {h})
  }

  lemma {:induction false} TotalPick(disk: Disk, m: Index, h: Hash)
    requires h in m
    ensures UnspentTotal(disk, m) == EntryValue(disk, m[h], |m[h].spent|) + UnspentTotal(disk, m - {h})
    decreases |m|
  {
    var g :| g in m && UnspentTotal(disk, m) == EntryValue(disk, m[g], |m[g].spent|) + UnspentTotal(disk, m - {g});
    if g != h {
      TotalPick(disk, m - {g}, h);
      TotalPick(disk, m - {h}, g);
      assert m - {g} - {h} == m - {h} - {g};
    }
  }

  lemma TotalSet(disk: Disk, m: Index, h: Hash, e: TxIndex)
    ensures UnspentTotal(disk, m[h := e]) == UnspentTotal(disk, m) + EntryValue(disk, e, |e.spent|)
                                           - if h in m then EntryValue(disk, m[h], |m[h].spent|) else 0
  {
    TotalPick(disk, m[h := e], h);
    if h in m {
      TotalPick(disk, m, h);
      assert m[h := e] - {h} == m - {h};
    } else {
      assert m[h := e] - {h} == m;
    }
  }

  lemma {:induction false} EntrySpend(disk: Disk, e: TxIndex, n: nat, pos: TxPos, k: nat)
    requires n < |e.spent| && e.spent[n].None? && k <= |e.spent|
    ensures EntryValue(disk, e.(spent := e.spent[n := Some(pos)]), k)
         == EntryValue(disk, e, k) - if n < k && n < |disk(e.pos).vout| then disk(e.pos).vout[n].value else 0
  {
    if k > 0 {
      EntrySpend(disk, e, n, pos, k - 1);
    }
  }

  lemma {:induction false} EntryFullySpent(disk: Disk, e: TxIndex, k: nat)
    requires FullySpent(e) && k <= |e.spent|
    ensures EntryValue(disk, e, k) == 0
  {
    if k > 0 {
      EntryFullySpent(disk, e, k - 1);
    }
  }

  lemma {:induction false} EntryFresh(disk: Disk, tx: Tx, pos: TxPos, k: nat)
    requires disk(pos) == tx && k <= |tx.vout|
    ensures EntryValue(disk, Unspent(pos, |tx.vout|), k) == SumOut(tx.vout[..k])
  {
    if k > 0 {
      EntryFresh(disk, tx, pos, k - 1);
      assert tx.vout[..k][..k - 1] == tx.vout[..k - 1];
    }
  }

  lemma {:induction false} TotalSpend(disk: Disk, m: Index, vin: seq<OutPoint>, k: nat, pos: TxPos)
    requires k <= |vin|
    requires SpendInputs(m, vin, k, pos).Some?
    ensures UnspentTotal(disk, SpendInputs(m, vin, k, pos).value) == UnspentTotal(disk, m) - SumIn(disk, m, vin, k)
  {
    if k > 0 {
      TotalSpend(disk, m, vin, k - 1, pos);
      SpendMarks(m, vin, k - 1, pos);
      var m', o := SpendInputs(m, vin, k - 1, pos).value, vin[k - 1];
      assert ValueOf(disk, m', o) == ValueOf(disk, m, o);
      EntrySpend(disk, m'[o.hash], o.n, pos, |m'[o.hash].spent|);
      TotalSet(disk, m', o.hash, SetSpent(m', o, Some(pos))[o.hash]);
    }
  }

  // Overwriting a fully spent entry loses no value.
  lemma TotalInsert(disk: Disk, m: Index, tx: Tx, pos: TxPos)
    requires disk(pos) == tx
    requires tx.id in m ==> FullySpent(m[tx.id])
    ensures UnspentTotal(disk, m[tx.id := Unspent(pos, |tx.vout|)]) == UnspentTotal(disk, m) + tx.ValueOut()
  {
    TotalSet(disk, m, tx.id, Unspent(pos, |tx.vout|));
    EntryFresh(disk, tx, pos, |tx.vout|);
    assert tx.vout[..|tx.vout|] == tx.vout;
    if tx.id in m {
      EntryFullySpent(disk, m[tx.id], |m[tx.id].spent|);
    }
  }

  // Connecting transactions keeps the entries that later ones overwrite fully spent.
  lemma StillOverwritesOnlySpent(disk: Disk, t: Tally, b: Block, at: FilePos, k: nat)
    requires k < |b.vtx| && DistinctIds(b)
    requires OverwritesOnlySpent(t.index, b, k)
    requires ConnectTx(disk, t, b.vtx[k], PosOf(b, at, k)).Some?
    ensures OverwritesOnlySpent(ConnectTx(disk, t, b.vtx[k], PosOf(b, at, k)).value.index, b, k + 1)
  {
    var tx, pos := b.vtx[k], PosOf(b, at, k);
    if !tx.IsCoinBase() {
      SpendMarks(t.index, tx.vin, |tx.vin|, pos);
    }
  }

  // What the unspent outputs are worth, less what the block has minted so far
  ghost function Base(disk: Disk, t: Tally): int {
    UnspentTotal(disk, t.index) - (t.valueOut - t.valueIn)
  }

  lemma TotalConnectTx(disk: Disk, t: Tally, tx: Tx, pos: TxPos)
    requires disk(pos) == tx
    requires tx.id in t.index ==> FullySpent(t.index[tx.id])
    requires ConnectTx(disk, t, tx, pos).Some?
    ensures Base(disk, ConnectTx(disk, t, tx, pos).value) == Base(disk, t)
  {
    if tx.IsCoinBase() {
      TotalInsert(disk, t.index, tx, pos);
    } else {
      TotalSpend(disk, t.index, tx.vin, |tx.vin|, pos);
      SpendMarks(t.index, tx.vin, |tx.vin|, pos);
      TotalInsert(disk, SpendInputs(t.index, tx.vin, |tx.vin|, pos).value, tx, pos);
    }
  }

  lemma TotalConnectNext(disk: Disk, t: Tally, b: Block, at: FilePos, k: nat, t': Tally)
    requires k < |b.vtx| && DistinctIds(b) && OnDisk(disk, b, at)
    requires OverwritesOnlySpent(t.index, b, k)
    requires ConnectTx(disk, t, b.vtx[k], PosOf(b, at, k)) == Some(t')
    ensures OverwritesOnlySpent(t'.index, b, k + 1)
    ensures Base(disk, t') == Base(disk, t)
  {
    StillOverwritesOnlySpent(disk, t, b, at, k);
    TotalConnectTx(disk, t, b.vtx[k], PosOf(b, at, k));
  }

  lemma {:induction false} TotalConnectTxs(disk: Disk, m: Index, b: Block, at: FilePos, k: nat)
    requires k <= |b.vtx| && DistinctIds(b) && OnDisk(disk, b, at)
    requires OverwritesOnlySpent(m, b, 0)
    requires ConnectTxs(disk, m, b, at, k).Some?
    ensures OverwritesOnlySpent(ConnectTxs(disk, m, b, at, k).value.index, b, k)
    ensures Base(disk, ConnectTxs(disk, m, b, at, k).value) == UnspentTotal(disk, m)
  {
    if k == 0 {
      assert ConnectTxs(disk, m, b, at, k) == Some(Tally(m, 0, 0, 0));
    } else {
      TotalConnectTxs(disk, m, b, at, k - 1);
      var t := ConnectTxs(disk, m, b, at, k - 1).value;
      assert ConnectTxs(disk, m, b, at, k) == ConnectTx(disk, t, b.vtx[k - 1], PosOf(b, at, k - 1));
      TotalConnectNext(disk, t, b, at, k - 1, ConnectTxs(disk, m, b, at, k).value);
    }
  }

  /** The running money supply of a chain is the value of all its unspent
      outputs, repeated transaction ids included. */
  lemma {:induction false} SupplyIsUnspentTotal(disk: Disk, chain: seq<Stored>)
    requires AllOnDisk(disk, chain)
    requires Replay(disk, chain).Some?
    ensures var s := Replay(disk, chain).value;
      UnspentTotal(disk, s.index) == s.tip.stats.supply
  {
    if chain != [] {
      var before, last := chain[..|chain| - 1], chain[|chain| - 1];
      SupplyIsUnspentTotal(disk, before);
      TotalConnectTxs(disk, Replay(disk, before).value.index, last.block, last.at, |last.block.vtx|);
    }
  }
}

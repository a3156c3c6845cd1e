/**
 What a block may mint: the schedule of subsidies, the bound on either kind of
 block, and where the counters book it.
 */
module Minting {
  import opened Basics
  import opened Transactions
  import opened MarkedOutputs
  import opened Ledger
  import opened Supply

  // --- the schedule

  lemma SubsidyAt(n: nat)
    requires n > 0
    ensures n < 576 ==> FullSubsidy(n) == Min(COIN + 399 * COIN * ((n - 1) * (n - 1)) / 575 / 575, 400 * COIN)
    ensures n >= 576 ==> FullSubsidy(n) == Min(TAIL / (n * n), 400 * COIN)
  {
    assert 399 * COIN * (n - 1) * (n - 1) == 399 * COIN * ((n - 1) * (n - 1));
  }

  lemma MoreDivided(a: int, b: int)
    requires a + 575 * 575 <= b
    ensures a / 575 / 575 < b / 575 / 575
  {
    assert b / 575 >= (a + 575 * 575) / 575 == a / 575 + 575;
  }

  lemma EarlyBound(n: nat)
    requires 0 < n < 576
    ensures COIN + 399 * COIN * ((n - 1) * (n - 1)) / 575 / 575 < 400 * COIN
  {
    Larger(n - 1, 574);
    Divided(399 * COIN * ((n - 1) * (n - 1)), 399 * COIN * (574 * 574));
  }

  lemma Divided(a: int, b: int)
    requires a <= b
    ensures a / 575 / 575 <= b / 575 / 575
  {
    assert a / 575 <= b / 575;
  }

  /** The subsidy starts at one coin and rises with every height up to 575. */
  lemma SubsidyRises(n: nat)
    requires 0 < n < 576
    ensures FullSubsidy(1) == COIN
    ensures n < 575 ==> FullSubsidy(n) < FullSubsidy(n + 1)
    ensures FullSubsidy(n) < 400 * COIN
  {
    hide FullSubsidy;
    SubsidyAt(1);
    SubsidyAt(n);
    EarlyBound(n);
    if n < 575 {
      SubsidyAt(n + 1);
      EarlyBound(n + 1);
      assert n * n - (n - 1) * (n - 1) == 2 * n - 1 >= 1;
      MoreDivided(399 * COIN * ((n - 1) * (n - 1)), 399 * COIN * (n * n));
    }
  }

  /** It is 400 coins from height 576 to height 26280. */
  lemma SubsidyIsLevel(n: nat)
    requires 576 <= n <= LEVEL_HEIGHT
    ensures FullSubsidy(n) == 400 * COIN
  {
    hide FullSubsidy;
    SubsidyAt(n);
    Larger(n, LEVEL_HEIGHT);
    AtLeast(TAIL, n * n, 400 * COIN);
  }

  lemma Larger(a: nat, b: nat)
    requires a <= b
    ensures a * a <= b * b
  {
    assert a * a <= a * b <= b * b;
  }

  lemma AtLeast(x: int, d: int, q: int)
    requires d > 0 && q >= 0 && d * q <= x
    ensures x / d >= q
  {
    var r := x / d;
    NextMultiple(x, d);
    Monotone(d, Min(r + 1, q), q);
  }

  lemma NextMultiple(x: int, d: int)
    requires d > 0
    ensures d * (x / d) <= x < d * (x / d + 1)
  {}

  lemma Monotone(d: nat, a: int, b: int)
    requires a <= b
    ensures d * a <= d * b
  {}

  lemma QuotientFalls(x: nat, d: nat, e: nat)
    requires 0 < d <= e
    ensures x / e <= x / d
  {
    var q := x / e;
    NextMultiple(x, e);
    Monotone(q, d, e);
    AtLeast(x, d, q);
  }

  /** After that it never rises again. */
  lemma SubsidyFalls(n: nat)
    requires n >= 576
    ensures FullSubsidy(n + 1) <= FullSubsidy(n)
  {
    hide FullSubsidy;
    SubsidyAt(n);
    SubsidyAt(n + 1);
    Larger(n, n + 1);
    QuotientFalls(TAIL, n * n, (n + 1) * (n + 1));
  }

  // --- the bound

  // What the block creates: its outputs less its inputs
  function Minted(t: Tally): int {
    t.valueOut - t.valueIn
  }

  // What the coinstake pays out beyond what it takes in
  function StakeGain(disk: Disk, m: Index, b: Block, at: FilePos): int
    requires b.IsProofOfStake() && ConnectTxs(disk, m, b, at, 1).Some?
  {
    b.vtx[1].ValueOut() - TxValueIn(disk, ConnectTxs(disk, m, b, at, 1).value.index, b.vtx[1])
  }

  function Max(a: int, b: int): int {
    if a < b then b else a
  }

  // In a proof-of-stake block everything but coinbase and coinstake is
  // accounted for by fees.
  lemma {:induction false} StakeFeesCancel(disk: Disk, m: Index, b: Block, at: FilePos, k: nat)
    requires 2 <= k <= |b.vtx| && WellPlaced(b) && b.IsProofOfStake()
    requires ConnectTxs(disk, m, b, at, k).Some?
    ensures ConnectTxs(disk, m, b, at, 1).Some?
    ensures var t := ConnectTxs(disk, m, b, at, k).value;
      Minted(t) == b.vtx[0].ValueOut() - t.fees + StakeGain(disk, m, b, at)
  {
    hide Connects, Spent, SumIn, SumOut;
    ConnectTxsPrefix(disk, m, b, at, 1, k);
    ConnectTxsPrefix(disk, m, b, at, k - 1, k);
    if k > 2 {
      StakeFeesCancel(disk, m, b, at, k - 1);
    } else {
      assert ConnectTxs(disk, m, b, at, 0) == Some(Tally(m, 0, 0, 0));
    }
  }

  // A proof-of-stake block creates no more than its coinstake gains, a
  // proof-of-work block no more than a quarter of the subsidy or what stake debt
  // leaves of it.
  predicate MintsWithin(disk: Disk, s: State, b: Block, at: FilePos)
    requires ConnectTxs(disk, s.index, b, at, |b.vtx|).Some? && (b.IsProofOfStake() ==> ConnectTxs(disk, s.index, b, at, 1).Some?)
  {
    var minted := Minted(ConnectTxs(disk, s.index, b, at, |b.vtx|).value);
    if b.IsProofOfStake() then minted <= StakeGain(disk, s.index, b, at)
    else var full := FullSubsidy(s.tip.powHeight + 1); minted <= Max(full / 4, full - s.tip.stats.posDebt)
  }

  /** A block that passes all else applies exactly if what it creates is within
      the bound of its kind. */
  lemma MintRule(disk: Disk, s: State, b: Block, at: FilePos)
    requires WellPlaced(b) && OverwritesOnlySpent(s.index, b, 0) && ConnectTxs(disk, s.index, b, at, |b.vtx|).Some?
    ensures b.IsProofOfStake() ==> ConnectTxs(disk, s.index, b, at, 1).Some?
    ensures ApplyBlock(disk, s, b, at).Some? <==> MintsWithin(disk, s, b, at)
  {
    hide FullSubsidy, ConnectTxs, WellPlaced, OverwritesOnlySpent, SumOut;
    WellPlacedHasCoinbase(b);
    if b.IsProofOfStake() {
      ConnectTxsPrefix(disk, s.index, b, at, 1, |b.vtx|);
      StakeFeesCancel(disk, s.index, b, at, |b.vtx|);
    } else {
      FeesCancel(disk, s.index, b, at, |b.vtx|);
    }
  }

  lemma WellPlacedHasCoinbase(b: Block)
    requires WellPlaced(b)
    ensures |b.vtx| > 0
  {}

  /** No block that applies creates more than the bound of its kind. */
  lemma MintBound(disk: Disk, s: State, b: Block, at: FilePos)
    requires ApplyBlock(disk, s, b, at).Some?
    ensures ConnectTxs(disk, s.index, b, at, |b.vtx|).Some? && (b.IsProofOfStake() ==> ConnectTxs(disk, s.index, b, at, 1).Some?)
    ensures var rise := ApplyBlock(disk, s, b, at).value.tip.stats.supply - s.tip.stats.supply;
      var full := FullSubsidy(s.tip.powHeight + 1);
      rise <= if b.IsProofOfStake() then StakeGain(disk, s.index, b, at) else Max(full / 4, full - s.tip.stats.posDebt)
  {
    hide FullSubsidy, ConnectTxs, WellPlaced, OverwritesOnlySpent, StakeGain;
    MintRule(disk, s, b, at);
  }

  // --- the books

  /** What a block creates raises the supply; it counts as minted by stake exactly
      in proof-of-stake blocks; and nMint adds the fees to it. */
  lemma BlockBooks(disk: Disk, s: State, b: Block, at: FilePos)
    requires ApplyBlock(disk, s, b, at).Some?
    ensures ConnectTxs(disk, s.index, b, at, |b.vtx|).Some?
    ensures var t, was, now := ConnectTxs(disk, s.index, b, at, |b.vtx|).value, s.tip.stats, ApplyBlock(disk, s, b, at).value.tip.stats;
      && now.supply - was.supply == Minted(t)
      && now.posTotalMint - was.posTotalMint == (if b.IsProofOfStake() then Minted(t) else 0)
      && (b.IsProofOfStake() ==> now.posDebt - was.posDebt == Minted(t))
      && now.mint == Minted(t) + t.fees
  {
    hide FullSubsidy, ConnectTxs, WellPlaced, OverwritesOnlySpent;
  }

  // What the proof-of-work blocks of a chain have created
  function WorkMinted(disk: Disk, chain: seq<Stored>): int
    requires Replay(disk, chain).Some?
    decreases |chain|
  {
    if chain == [] then 0 else
    var before, last := chain[..|chain| - 1], chain[|chain| - 1];
    var s := Replay(disk, before).value;
    MintBound(disk, s, last.block, last.at);
    WorkMinted(disk, before) +
      if last.block.IsProofOfStake() then 0 else Minted(ConnectTxs(disk, s.index, last.block, last.at, |last.block.vtx|).value)
  }

  /** On every chain supply is what stakers and miners have created, and stake debt
      is what stakers created less what miners left unclaimed of the subsidies. */
  lemma {:induction false} DebtIsUnrecovered(disk: Disk, chain: seq<Stored>)
    requires Replay(disk, chain).Some?
    ensures var tip := Replay(disk, chain).value.tip;
      && tip.stats.supply == tip.stats.posTotalMint + WorkMinted(disk, chain)
      && tip.stats.posDebt == tip.stats.posTotalMint - (SubsidySum(tip.powHeight) - WorkMinted(disk, chain))
    decreases |chain|
  {
    hide ApplyBlock, FullSubsidy, SubsidySum, ConnectTxs;
    SupplyIsSubsidyPlusDebt(disk, chain);
    if chain != [] {
      var before, last := chain[..|chain| - 1], chain[|chain| - 1];
      DebtIsUnrecovered(disk, before);
      BlockBooks(disk, Replay(disk, before).value, last.block, last.at);
    }
  }

  // --- ordinary transactions

  /** An ordinary transaction never raises the value of the unspent outputs. */
  lemma OrdinaryCreatesNothing(disk: Disk, t: Tally, tx: Tx, pos: TxPos)
    requires disk(pos) == tx && !tx.IsCoinBase() && !tx.IsCoinStake()
    requires tx.id in t.index ==> FullySpent(t.index[tx.id])
    requires ConnectTx(disk, t, tx, pos).Some?
    ensures UnspentTotal(disk, ConnectTx(disk, t, tx, pos).value.index) <= UnspentTotal(disk, t.index)
  {
    hide UnspentTotal, FullySpent, Spent, SumOut;
    TotalConnectTx(disk, t, tx, pos);
  }
}

/**
 Runs on which the chain code does less than it seems to promise.
 */
module Counterexamples {
  import opened Basics
  import opened Transactions
  import opened MarkedOutputs
  import opened Ledger
  import opened BlockTree
  import opened BlockConnection
  import opened ChainState

  function Coinbase(id: Hash): Tx {
    Tx(id, 0, 100, [OutPoint(0, 0xffff_ffff)], [TxOut(1, [])])
  }

  function Spend(id: Hash, prev: Hash): Tx {
    Tx(id, 0, 100, [OutPoint(prev, 0)], [TxOut(1, [])])
  }

  function Numbered(n: nat, vtx: seq<Tx>): Block
    requires n > 0
  {
    Block(n, n - 1, 0, 1, 80, vtx)
  }

  function Place(n: nat): FilePos {
    FilePos(n, 0)
  }

  lemma SumOne(tx: Tx)
    requires tx.vout == [TxOut(1, [])]
    ensures tx.ValueOut() == 1 && OutputsInRange(tx)
  {
    assert tx.vout[..0] == [];
    assert SumOut([]) == 0;
  }

  // Miners may always claim one unit at these heights.
  lemma RewardAtLeastOne(tip: Tip)
    requires tip.powHeight < 500
    ensures NextProofOfWorkReward(Some(tip), true) >= 1
  {
    hide FullSubsidy;
    EarlySubsidy(tip.powHeight + 1);
  }

  lemma EarlySubsidy(n: nat)
    requires 1 <= n < 576
    ensures FullSubsidy(n) >= COIN
  {
    var square := (n - 1) * (n - 1);
    assert square >= 0;
    assert 399 * COIN * (n - 1) * (n - 1) == 399 * COIN * square;
    assert 399 * COIN * square / 575 / 575 >= 0;
  }

  // --- a transaction id that comes back

  // nCoinbaseMaturity: a coinbase may be spent this many blocks later
  const MATURITY := 250

  // A coinbase in block 1, as many blocks as it takes to mature, a spend of it, and
  // a coinbase with the id of the first
  function Filler(n: nat): Stored
    requires n > 0
  {
    Stored(Numbered(n, [Coinbase(1000 + n)]), Place(n))
  }

  function First(): Stored {
    Stored(Numbered(1, [Coinbase(7)]), Place(1))
  }

  function Spending(): Stored {
    Stored(Numbered(MATURITY + 1, [Coinbase(8), Spend(9, 7)]), Place(MATURITY + 1))
  }

  function Repeating(): Stored {
    Stored(Numbered(MATURITY + 2, [Coinbase(7)]), Place(MATURITY + 2))
  }

  // Block 1 and the fillers up to block n
  function Maturing(n: nat): seq<Stored>
    requires n > 0
  {
    if n == 1 then [First()] else Maturing(n - 1) + [Filler(n)]
  }

  // A block with a coinbase alone connects wherever it overwrites nothing unspent.
  lemma CoinbaseConnects(disk: Disk, s: State, n: nat, id: Hash, at: FilePos)
    requires n > 0 && s.tip.powHeight < 500
    requires id in s.index ==> FullySpent(s.index[id])
    ensures var b := Numbered(n, [Coinbase(id)]);
      && ConnectTxs(disk, s.index, b, at, 1).Some?
      && ApplyBlock(disk, s, b, at).Some?
      && ApplyBlock(disk, s, b, at).value.index == s.index[id := Unspent(PosOf(b, at, 0), 1)]
      && ApplyBlock(disk, s, b, at).value.tip.powHeight == s.tip.powHeight + 1
  {
    hide FullSubsidy, NextProofOfWorkReward;
    var b := Numbered(n, [Coinbase(id)]);
    SumOne(Coinbase(id));
    RewardAtLeastOne(s.tip);
    assert ConnectTxs(disk, s.index, b, at, 0) == Some(Tally(s.index, 0, 0, 0));
    assert ConnectTxs(disk, s.index, b, at, 1) == ConnectTx(disk, Tally(s.index, 0, 0, 0), Coinbase(id), PosOf(b, at, 0));
  }

  lemma SpendConnects(disk: Disk, m: Index, pos: TxPos)
    requires 7 in m && m[7].spent == [None] && disk(m[7].pos) == Coinbase(7)
    ensures Connects(disk, m, Spend(9, 7), pos) && TxFee(disk, m, Spend(9, 7)) == 0
    ensures 7 in Spent(disk, m, Spend(9, 7), pos) && FullySpent(Spent(disk, m, Spend(9, 7), pos)[7])
  {
    var tx := Spend(9, 7);
    SumOne(tx);
    assert SumIn(disk, m, tx.vin, 0) == 0;
    assert SumIn(disk, m, tx.vin, 1) == 1;
    assert SpendInputs(m, tx.vin, 0, pos) == Some(m);
    assert SpendInputs(m, tx.vin, 1, pos) == Some(SetSpent(m, OutPoint(7, 0), Some(pos)));
  }

  lemma SpendingConnects(disk: Disk, s: State)
    requires s.tip.powHeight < 500
    requires 7 in s.index && s.index[7].spent == [None] && disk(s.index[7].pos) == Coinbase(7)
    requires 8 !in s.index && 9 !in s.index
    ensures var o := ApplyBlock(disk, s, Spending().block, Spending().at);
      && o.Some? && o.value.tip.powHeight == s.tip.powHeight + 1
      && 7 in o.value.index && FullySpent(o.value.index[7])
  {
    hide FullSubsidy, NextProofOfWorkReward, SpendInputs, InputsPresent, InputsInOrder, FullySpent;
    var b, at := Spending().block, Spending().at;
    SumOne(Coinbase(8));
    SumOne(Spend(9, 7));
    RewardAtLeastOne(s.tip);
    assert b.vtx[0] == Coinbase(8) && b.vtx[1] == Spend(9, 7);
    assert !b.IsProofOfStake() && WellPlaced(b);
    var m := s.index[8 := Unspent(PosOf(b, at, 0), 1)];
    var t0, t1 := Tally(s.index, 0, 0, 0), Tally(m, 0, 1, 0);
    assert ConnectTxs(disk, s.index, b, at, 0) == Some(t0);
    assert ConnectTxs(disk, s.index, b, at, 1) == ConnectTx(disk, t0, b.vtx[0], PosOf(b, at, 0)) == Some(t1);
    SpendConnects(disk, m, PosOf(b, at, 1));
    assert ConnectTxs(disk, s.index, b, at, 2) == ConnectTx(disk, t1, b.vtx[1], PosOf(b, at, 1));
  }

  lemma ReplayNext(disk: Disk, before: seq<Stored>, last: Stored)
    requires Replay(disk, before).Some?
    ensures Replay(disk, before + [last]) == ApplyBlock(disk, Replay(disk, before).value, last.block, last.at)
  {
    hide ApplyBlock;
    var chain := before + [last];
    assert chain[..|chain| - 1] == before;
  }

  // A chain of one block with a coinbase alone
  lemma OneBlockConnects(disk: Disk, id: Hash)
    ensures var b := Numbered(1, [Coinbase(id)]);
      var o := Replay(disk, [Stored(b, Place(1))]);
      && o.Some? && o.value.tip.powHeight == 1
      && o.value.index == map[id := Unspent(PosOf(b, Place(1), 0), 1)]
  {
    hide ApplyBlock, ConnectTxs;
    var last := Stored(Numbered(1, [Coinbase(id)]), Place(1));
    assert Replay(disk, []) == Some(GENESIS);
    CoinbaseConnects(disk, GENESIS, 1, id, Place(1));
    ReplayNext(disk, [], last);
    assert [] + [last] == [last];
  }

  // Block 1's coinbase is unspent and the ids 8 and 9 are free.
  ghost predicate Waiting(disk: Disk, s: State, n: nat) {
    && s.tip.powHeight == n
    && 7 in s.index && s.index[7].spent == [None] && disk(s.index[7].pos) == Coinbase(7)
    && 8 !in s.index && 9 !in s.index
    && forall id | id in s.index :: id <= 1000 + n
  }

  lemma {:induction false} MaturingConnects(disk: Disk, n: nat)
    requires 0 < n < 500 && OnDisk(disk, First().block, First().at)
    ensures Replay(disk, Maturing(n)).Some? && Waiting(disk, Replay(disk, Maturing(n)).value, n)
  {
    hide ApplyBlock, Replay, ConnectTxs;
    if n == 1 {
      OneBlockConnects(disk, 7);
      assert disk(PosOf(First().block, First().at, 0)) == First().block.vtx[0];
    } else {
      MaturingConnects(disk, n - 1);
      var s := Replay(disk, Maturing(n - 1)).value;
      CoinbaseConnects(disk, s, n, 1000 + n, Place(n));
      ReplayNext(disk, Maturing(n - 1), Filler(n));
    }
  }

  lemma SpentChainConnects(disk: Disk)
    requires OnDisk(disk, First().block, First().at)
    ensures var o := Replay(disk, Maturing(MATURITY) + [Spending()]);
      o.Some? && o.value.tip.powHeight == MATURITY + 1 && 7 in o.value.index && FullySpent(o.value.index[7])
  {
    hide ApplyBlock, FullySpent, Replay, Maturing, Spending;
    MaturingConnects(disk, MATURITY);
    SpendingConnects(disk, Replay(disk, Maturing(MATURITY)).value);
    ReplayNext(disk, Maturing(MATURITY), Spending());
  }

  lemma {:induction false} MaturingLength(n: nat)
    requires n > 0
    ensures |Maturing(n)| == n && Maturing(n)[0] == First()
  {
    if n > 1 {
      MaturingLength(n - 1);
    }
  }

  /** A chain of 252 blocks connects from genesis on, block 251 spending the coinbase
      of block 1 once it has matured, and disconnecting its last block does not give
      the index of the chain without it: that block overwrites a fully spent
      transaction, whose entry is then lost. */
  lemma OverwrittenEntryIsLost(disk: Disk)
    requires OnDisk(disk, First().block, First().at)
    ensures var before := Maturing(MATURITY) + [Spending()];
      && |before| - 1 >= MATURITY && before[0] == First()
      && Replay(disk, before).Some? && Replay(disk, before + [Repeating()]).Some?
      && DisconnectTxs(Replay(disk, before + [Repeating()]).value.index, Repeating().block, 0) != Some(Replay(disk, before).value.index)
  {
    hide ApplyBlock, Replay, FullySpent, ConnectTxs, DisconnectTxs, First, Spending, Maturing;
    var before := Maturing(MATURITY) + [Spending()];
    MaturingLength(MATURITY);
    SpentChainConnects(disk);
    var s := Replay(disk, before).value;
    CoinbaseConnects(disk, s, MATURITY + 2, 7, Place(MATURITY + 2));
    ReplayNext(disk, before, Repeating());
    IndexIsConnected(disk, s, Repeating());
    DisconnectInvertsConnect(disk, s.index, Repeating().block, Repeating().at);
    assert Repeating().block.vtx[0].id in Repeating().block.Ids();
  }

  lemma IndexIsConnected(disk: Disk, s: State, b: Stored)
    requires ApplyBlock(disk, s, b.block, b.at).Some?
    ensures DistinctIds(b.block) && ConnectTxs(disk, s.index, b.block, b.at, |b.block.vtx|).Some?
    ensures ApplyBlock(disk, s, b.block, b.at).value.index == ConnectTxs(disk, s.index, b.block, b.at, |b.block.vtx|).value.index
  {
    hide FullSubsidy;
  }

  // --- a postponed block that fails

  function ChainBlock(n: nat): Block
    requires n > 0
  {
    Numbered(n, [Coinbase(n)])
  }

  // Lets the blocks with these ids pass.
  function Passing(ids: set<Hash>): Rules {
    Rules((b: Block) => b.id in ids, (tx, i) => true, tx => true)
  }

  lemma PassingAllows(ids: set<Hash>, n: nat)
    requires n > 0
    ensures Allowed(Passing(ids), ChainBlock(n)) <==> n in ids
  {}

  // Genesis with block 1, and with block 2 on top of it
  function Genesis(): Block {
    Block(0, 0, 0, 1, 80, [])
  }

  function Root(): Tree {
    Tree(map[0 := Node(Genesis(), Place(0), None, 0, 0, BlockTrust(Genesis()))], 0, BlockTrust)
  }

  function OneBlock(): Tree {
    Grow(Root(), ChainBlock(1), Place(1))
  }

  function TwoBlocks(): Tree {
    Grow(OneBlock(), ChainBlock(2), Place(2))
  }

  lemma TreeShapes()
    ensures Root().Valid() && OneBlock().Valid() && TwoBlocks().Valid()
    ensures OneBlock().Has(0) && OneBlock().Has(1) && TwoBlocks().Has(0) && TwoBlocks().Has(1) && TwoBlocks().Has(2)
    ensures OneBlock().nodes[1].prev == Some(0) && TwoBlocks().nodes[2].prev == Some(1) && TwoBlocks().nodes[1].prev == Some(0)
    ensures OneBlock().nodes[0].prev == TwoBlocks().nodes[0].prev == None
    ensures var t := TwoBlocks(); t.nodes[0].trust < t.nodes[1].trust < t.nodes[2].trust
    ensures OneBlock().nodes[0].trust < OneBlock().nodes[1].trust
  {
    GrowValid(Root(), ChainBlock(1), Place(1));
    GrowValid(OneBlock(), ChainBlock(2), Place(2));
  }

  lemma WithBlockOne(disk: Disk, rules: Rules)
    requires !Allowed(rules, ChainBlock(1))
    ensures OneBlock().Valid() && OneBlock().Has(0) && OneBlock().Has(1) && !Moves(rules, disk, OneBlock(), 0, 0, 1)
  {
    hide Allowed, Replay;
    TreeShapes();
    var t := OneBlock();
    assert t.Parent(1) == 0;
    assert t.Path(0) == [0] && t.Path(1) == [0] + [1];
    assert ForkOf(t, 0, 1) == 0 && Intermediate(t, 0, 1) == 1;
  }

  /** From a best block of genesis, block 1 connects and block 2 on top of it does
      not: the best block moves to block 2, but not all blocks up to it connect. */
  lemma PostponedBlockFails(disk: Disk)
    ensures var t := TwoBlocks();
      && t.Valid() && t.Has(0) && t.Has(2)
      && Moves(Passing({1}), disk, t, 0, 0, 2)
      && !ConnectsFrom(Passing({1}), disk, t, ForkOf(t, 0, 2), 2)
  {
    hide Allowed, Replay;
    TreeShapes();
    var t := TwoBlocks();
    assert t.Parent(1) == 0 && t.Parent(2) == 1;
    assert t.Path(0) == [0] && t.Path(1) == [0] + [1] && t.Path(2) == [0] + [1] + [2];
    assert ForkOf(t, 0, 1) == 0 && ForkOf(t, 0, 2) == 0;
    assert Intermediate(t, 0, 1) == 1 && Intermediate(t, 0, 2) == 1;
    assert t.Chain(0) == [] && t.Chain(1) == [Stored(ChainBlock(1), Place(1))];
    OneBlockConnects(disk, 1);
    PassingAllows({1}, 1);
    PassingAllows({1}, 2);
    assert AllAllowed(Passing({1}), t, 0, 1);
  }

  lemma BlocksFit(disk: Disk)
    requires forall p: TxPos :: disk(p) == if p.block == Place(1) then Coinbase(1) else Coinbase(2)
    ensures OnDisk(disk, ChainBlock(1), Place(1)) && OnDisk(disk, ChainBlock(2), Place(2))
    ensures Root().Valid() && IdsOf(Root().Chain(0)) !! ChainBlock(1).Ids()
    ensures OneBlock().Valid() && OneBlock().Has(1) && IdsOf(OneBlock().Chain(1)) !! ChainBlock(2).Ids()
  {
    TreeShapes();
    var t := OneBlock();
    assert t.Parent(1) == 0;
    assert t.Chain(0) == [] && t.Chain(1) == [Stored(ChainBlock(1), Place(1))];
    assert t.Chain(1)[..0] == [];
    assert IdsOf([]) == {};
    assert IdsOf(t.Chain(1)) == ChainBlock(1).Ids();
  }

  /** The node gets there: block 1 arrives while the rules refuse it and stays
      indexed; block 2 arrives when they let block 1 pass but not block 2.  Then
      block 2 is the best block, the index is not its replay, and IsInMainChain
      does not hold for it and its ancestors exactly. */
  method ReachPostponedFailure() returns (c: Chain)
    ensures fresh(c) && c.Steady() && c.tip == 2 && !c.Valid() && !c.Accounted() && !c.Exact()
  {
    hide Moves, ConnectsFrom, Chain.Valid, Chain.Accounted, Chain.Exact, Chain.Steady, OneBlock, TwoBlocks, ChainBlock, Passing, OnDisk, IdsOf, Block.Ids;
    var disk: Disk := (p: TxPos) => if p.block == Place(1) then Coinbase(1) else Coinbase(2);
    c := new Chain(disk, Genesis(), Place(0));
    assert c.tree == Root();
    TreeShapes();
    TreeSteps();
    BlocksFit(disk);
    PassingAllows({}, 1);
    WithBlockOne(disk, Passing({}));
    PostponedBlockFails(disk);
    assert c.Fits(ChainBlock(1), Place(1));
    var ok := c.AddToBlockIndex(Passing({}), ChainBlock(1), Place(1));
    assert c.tree == OneBlock() && c.tip == 0 && c.Valid();
    ValidIsAccounted(c);
    assert c.Fits(ChainBlock(2), Place(2));
    ok := c.AddToBlockIndex(Passing({1}), ChainBlock(2), Place(2));
    assert c.tree == TwoBlocks() && c.tip == 2;
  }

  lemma TreeSteps()
    ensures ChainBlock(1).id == 1 && ChainBlock(1).prev == 0 && ChainBlock(2).id == 2 && ChainBlock(2).prev == 1
    ensures Root().Has(0) && !Root().Has(1) && !OneBlock().Has(2) && OneBlock().Has(1)
    ensures OneBlock() == Grow(Root(), ChainBlock(1), Place(1)) && TwoBlocks() == Grow(OneBlock(), ChainBlock(2), Place(2))
  {}
}

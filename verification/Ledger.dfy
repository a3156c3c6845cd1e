/**
 What connecting a block does to the index and to the running counters of its
 block index entry, and what replaying a whole chain from genesis amounts to.
 */
module Ledger {
  import opened Basics
  import opened Transactions
  import opened MarkedOutputs

  const MAX_MINT_PROOF_OF_WORK := 400 * COIN
  const LEVEL_HEIGHT := 26280

  // The counters that ConnectBlock writes into a CBlockIndex
  datatype Stats = Stats(mint: int, supply: int, posTotalMint: int, posDebt: int)

  const NO_STATS := Stats(0, 0, 0, 0)

  // The subsidy of the PoW block with this PoW height, before stake debt
  function FullSubsidy(powHeight: nat): int
    requires powHeight > 0
  {
    var subsidy :=
      if powHeight < 576 then COIN + 399 * COIN * (powHeight - 1) * (powHeight - 1) / 575 / 575
      else 400 * COIN * LEVEL_HEIGHT * LEVEL_HEIGHT / (powHeight * powHeight);
    if subsidy <= MAX_MINT_PROOF_OF_WORK then subsidy else MAX_MINT_PROOF_OF_WORK
  }

  datatype Tip = Tip(powHeight: nat, stats: Stats)

  function NextProofOfWorkReward(prev: Option<Tip>, accountForPoS: bool): int {
    match prev
    case None => COIN
    case Some(tip) =>
      var full := FullSubsidy(tip.powHeight + 1);
      if !accountForPoS then full
      else if full / 4 >= full - tip.stats.posDebt then full / 4
      else full - tip.stats.posDebt
  }

  function CoinbaseLimit(prev: Tip, b: Block, fees: int): int {
    fees + if b.IsProofOfStake() then 0 else NextProofOfWorkReward(Some(prev), true)
  }

  function NextStats(prev: Tip, b: Block, t: Tally): Stats
    requires |b.vtx| > 0
  {
    var delta := t.valueOut - t.valueIn;
    Stats(delta + t.fees,
          prev.stats.supply + delta,
          prev.stats.posTotalMint + if b.IsProofOfStake() then delta else 0,
          if b.IsProofOfStake() then prev.stats.posDebt + delta
          else prev.stats.posDebt - (NextProofOfWorkReward(Some(prev), false) - (b.vtx[0].ValueOut() - t.fees)))
  }

  function NextPowHeight(prev: nat, b: Block): nat {
    if b.IsProofOfStake() then prev else prev + 1
  }

  predicate FullySpent(e: TxIndex) {
    forall n | 0 <= n < |e.spent| :: e.spent[n].Some?
  }

  // A transaction may overwrite another with its id only if that one is fully
  // spent (BIP 30, section "Specification").
  predicate OverwritesOnlySpent(m: Index, b: Block, from: nat) {
    forall k | from <= k < |b.vtx| && b.vtx[k].id in m :: FullySpent(m[b.vtx[k].id])
  }

  datatype State = State(index: Index, tip: Tip)

  const GENESIS := State(map[], Tip(0, NO_STATS))

  // ConnectBlock, without the checks that look at signatures, clocks and ages
  function ApplyBlock(disk: Disk, s: State, b: Block, at: FilePos): Option<State> {
    if !WellPlaced(b) || !OverwritesOnlySpent(s.index, b, 0) then None else
    match ConnectTxs(disk, s.index, b, at, |b.vtx|)
    case None => None
    case Some(t) =>
      if b.vtx[0].ValueOut() > CoinbaseLimit(s.tip, b, t.fees) then None
      else Some(State(t.index, Tip(NextPowHeight(s.tip.powHeight, b), NextStats(s.tip, b, t))))
  }

  datatype Stored = Stored(block: Block, at: FilePos)

  // The state after connecting the blocks that follow genesis, oldest first
  function Replay(disk: Disk, chain: seq<Stored>): Option<State> {
    if chain == [] then Some(GENESIS) else
    match Replay(disk, chain[..|chain| - 1])
    case None => None
    case Some(s) => ApplyBlock(disk, s, chain[|chain| - 1].block, chain[|chain| - 1].at)
  }

  ghost predicate AllOnDisk(disk: Disk, chain: seq<Stored>) {
    forall i | 0 <= i < |chain| :: OnDisk(disk, chain[i].block, chain[i].at)
  }

  function IdsOf(chain: seq<Stored>): set<Hash> {
    if chain == [] then {} else IdsOf(chain[..|chain| - 1]) + chain[|chain| - 1].block.Ids()
  }

  // The index of a replayed chain holds the transactions of its blocks and no others.
  lemma {:induction false} ReplayKeys(disk: Disk, chain: seq<Stored>)
    requires Replay(disk, chain).Some?
    ensures Replay(disk, chain).value.index.Keys == IdsOf(chain)
  {
    if chain != [] {
      var before, last := chain[..|chain| - 1], chain[|chain| - 1];
      ReplayKeys(disk, before);
      ConnectTxsKeys(disk, Replay(disk, before).value.index, last.block, last.at, |last.block.vtx|);
      assert FirstIds(last.block, |last.block.vtx|) == last.block.Ids();
    }
  }

  /** Disconnecting the last block of a replayed chain gives the replay of the
      chain without it, provided the block repeats no id of the chain. */
  lemma DisconnectReplay(disk: Disk, before: seq<Stored>, last: Stored)
    requires Replay(disk, before + [last]).Some?
    requires IdsOf(before) !! last.block.Ids()
    ensures Replay(disk, before).Some?
    ensures DisconnectTxs(Replay(disk, before + [last]).value.index, last.block, 0) == Some(Replay(disk, before).value.index)
  {
    var chain := before + [last];
    assert chain[..|chain| - 1] == before;
    ReplayKeys(disk, before);
    DisconnectInvertsConnect(disk, Replay(disk, before).value.index, last.block, last.at);
  }
}

/**
 Values that the chain code passes around: outpoints, transactions, blocks and
 their positions in the block files.

 A hash is a number and a transaction carries its own id, so nothing below
 assumes that the hash function is free of collisions.
 */
module Transactions {
  import opened Basics

  type Hash = nat

  const COIN := 1_000_000
  const MAX_MONEY := 2_000_000_000 * COIN

  predicate MoneyRange(value: int) {
    0 <= value <= MAX_MONEY
  }

  datatype OutPoint = OutPoint(hash: Hash, n: nat) {
    predicate IsNull() {
      hash == 0 && n == 0xffff_ffff
    }
  }

  datatype TxOut = TxOut(value: int, script: seq<byte>) {
    predicate IsEmpty() {
      value == 0 && script == []
    }
  }

  // size is the serialized length, which decides where the next transaction of
  // the block starts in the block file
  datatype Tx = Tx(id: Hash, time: nat, size: nat, vin: seq<OutPoint>, vout: seq<TxOut>) {
    predicate IsCoinBase() {
      |vin| == 1 && vin[0].IsNull() && |vout| >= 1
    }

    predicate IsCoinStake() {
      |vin| > 0 && !vin[0].IsNull() && |vout| >= 2 && vout[0].IsEmpty()
    }

    function ValueOut(): int {
      SumOut(vout)
    }
  }

  function SumOut(outs: seq<TxOut>): int {
    if outs == [] then 0 else SumOut(outs[..|outs| - 1]) + outs[|outs| - 1].value
  }

  predicate OutputsInRange(tx: Tx) {
    (forall i | 0 <= i < |tx.vout| :: MoneyRange(tx.vout[i].value)) && MoneyRange(tx.ValueOut())
  }

  datatype FilePos = FilePos(file: nat, blockPos: nat)

  datatype TxPos = TxPos(block: FilePos, txPos: nat)

  // The block files: a transaction at every position
  type Disk = TxPos -> Tx

  // target is what SetCompact makes of nBits
  datatype Block = Block(id: Hash, prev: Hash, time: nat, target: int, headerSize: nat, vtx: seq<Tx>) {
    predicate IsProofOfStake() {
      |vtx| > 1 && vtx[1].IsCoinStake()
    }

    function Ids(): set<Hash> {
      set k | 0 <= k < |vtx| :: vtx[k].id
    }
  }

  function TxOffset(b: Block, at: FilePos, k: nat): nat
    requires k <= |b.vtx|
  {
    if k == 0 then at.blockPos + b.headerSize else TxOffset(b, at, k - 1) + b.vtx[k - 1].size
  }

  function PosOf(b: Block, at: FilePos, k: nat): TxPos
    requires k <= |b.vtx|
  {
    TxPos(at, TxOffset(b, at, k))
  }

  // WriteToDisk has put the block at this place of the block files
  ghost predicate OnDisk(disk: Disk, b: Block, at: FilePos) {
    forall k {:trigger PosOf(b, at, k)} | 0 <= k < |b.vtx| :: disk(PosOf(b, at, k)) == b.vtx[k]
  }

  predicate DistinctIds(b: Block) {
    forall j, k | 0 <= j < k < |b.vtx| :: b.vtx[j].id != b.vtx[k].id
  }

  // The content checks of CheckBlock that the accounting relies on: the first
  // transaction and no other is a coinbase, only the second may be a coinstake,
  // every output is in range and no id occurs twice.
  predicate WellPlaced(b: Block) {
    && |b.vtx| > 0
    && b.vtx[0].IsCoinBase()
    && (forall k | 1 <= k < |b.vtx| :: !b.vtx[k].IsCoinBase())
    && (forall k | 2 <= k < |b.vtx| :: !b.vtx[k].IsCoinStake())
    && (forall k | 0 <= k < |b.vtx| :: OutputsInRange(b.vtx[k]))
    && DistinctIds(b)
  }

  method CheckBlock(b: Block) returns (ok: bool)
    ensures ok <==> WellPlaced(b)
  {
    if |b.vtx| == 0 || !b.vtx[0].IsCoinBase() {
      return false;
    }
    for i := 1 to |b.vtx|
      invariant forall k | 1 <= k < i :: !b.vtx[k].IsCoinBase()
    {
      if b.vtx[i].IsCoinBase() {
        return false;
      }
    }
    var i := 2;
    while i < |b.vtx|
      invariant 2 <= i
      invariant forall k | 2 <= k < i && k < |b.vtx| :: !b.vtx[k].IsCoinStake()
    {
      if b.vtx[i].IsCoinStake() {
        return false;
      }
      i := i + 1;
    }
    for i := 0 to |b.vtx|
      invariant forall k | 0 <= k < i :: OutputsInRange(b.vtx[k])
    {
      if !OutputsInRange(b.vtx[i]) {
        return false;
      }
    }
    ok := AllIdsDistinct(b);
  }

  ghost function FirstIds(b: Block, n: nat): set<Hash>
    requires n <= |b.vtx|
  {
    set k | 0 <= k < n :: b.vtx[k].id
  }

  ghost predicate FirstDistinct(b: Block, n: nat)
    requires n <= |b.vtx|
  {
    forall j, k | 0 <= j < k < n :: b.vtx[j].id != b.vtx[k].id
  }

  lemma OneMore(b: Block, n: nat)
    requires n < |b.vtx|
    ensures FirstIds(b, n + 1) == FirstIds(b, n) + {b.vtx[n].id}
    ensures FirstDistinct(b, n + 1) <==> FirstDistinct(b, n) && b.vtx[n].id !in FirstIds(b, n)
  {}

  // The set of ids has as many members as there are transactions.
  method AllIdsDistinct(b: Block) returns (ok: bool)
    ensures ok <==> DistinctIds(b)
  {
    hide FirstIds, FirstDistinct;
    var unique: set<Hash> := {};
    NoneYet(b);
    for i := 0 to |b.vtx|
      invariant unique == FirstIds(b, i) && |unique| <= i
      invariant |unique| == i <==> FirstDistinct(b, i)
    {
      OneMore(b, i);
      unique := unique + {b.vtx[i].id};
    }
    AllOfThem(b);
    return |unique| == |b.vtx|;
  }

  lemma NoneYet(b: Block)
    ensures FirstIds(b, 0) == {} && FirstDistinct(b, 0)
  {}

  lemma AllOfThem(b: Block)
    ensures FirstDistinct(b, |b.vtx|) <==> DistinctIds(b)
  {}
}

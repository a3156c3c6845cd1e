# ShinyCoin: a verified model of its hard core

ShinyCoin is a proof-of-work / proof-of-stake coin. This project models the code
that keeps redundant structures consistent while they are changed in place, and
proves what that code is for.

- **Chain state and money** (`Transactions`, `MarkedOutputs`, `SpendHistory`, `Ledger`,
  `Minting`, `Supply`, `PrunedIndex`, `BlockConnection`, `BlockTree`, `ChainState`,
  `Counterexamples`). Connecting a block marks outputs
  as spent in the transaction index and updates the counters of its index entry;
  disconnecting undoes it; reorganisations move the best block across a fork. The
  central results: the index is the replay of the best chain from genesis as long as
  no transaction id repeats, and with repeated ids the replay without some fully
  spent entries, in both cases unless a postponed block fails; supply less stake debt
  is the sum of the full subsidies, which never exceeds 21,024,000 coins; supply is
  the value of all unspent outputs; no output is spent twice; a block mints at most its
  reward, or what its coinstake makes.
- **Synchronized checkpoints and the choice of the best chain** (`Checkpoints`,
  `MostTrust`) on the same tree: in every run of block arrivals and checkpoint messages,
  whatever connects, the checkpoint moves only to descendants and stays behind the best
  block. As long as the rules stay the same and no checkpoint is off the best chain, the
  node ends on a block that connects and that no other such block exceeds in trust.
- **Address manager** (`AddrMan`, `AddrManFile`, `AddrManCheck`): six structures that
  repeat each other, their invariant under every operation, the file round trip,
  and exactly what the built-in check accepts.
- **Script** (`ScriptBytes`, `ScriptNumbers`, `ScriptMachine`, `ScriptOperators`,
  `ScriptNesting`, `Multisig`, `ScriptSigOps`, `ScriptSpends`, `ScriptMultisig`): parser
  and printer, the interpreter with its flat stack of branch flags against a tree
  semantics, greedy multisignature matching, the static bound on signature checks,
  pay-to-script-hash included, and exactly which spends satisfy the standard scripts.
- **Headers** (`Headers`, `MedianTime`, `Compact`, `Retarget`, `TargetResponse`,
  `StakeModifier`, `Merkle`): median times, compact targets, retargeting and how it
  answers to the time blocks took, stake modifiers and Merkle branches.

`Basics` and `Sorting` hold what they share.

## How the model reads

- Code that computes a value is a function. Code that works step by step is a
  method with loops, proved against such a function or against a property; objects
  that are updated in place are classes (`TxDb`, `Chain`, `SyncCheckpoint`,
  `CAddrMan`, `CScript`, `CBlock`).
- Hashes are numbers. A transaction or block carries its own id, so nothing relies
  on freedom from collisions, except the two Merkle lemmas that say so.
- The block files are a total map from positions to transactions; `TxDb` is a map
  with begin, commit and abort.
- Checks that can only reject and that look at signatures, scripts, clocks, coin
  age, maturity or sizes are arbitrary predicates (`Rules`), so every result about
  the chain holds whatever they answer.
- `CBlockIndex` pointers are block hashes in `BlockTree`, and the fields that change
  later (`pnext` and the counters) are maps beside the tree. In `Headers` an index
  entry is a value linked to its predecessor, for code that only walks back.
- Random choices are arbitrary: the results hold for every choice in range.

## Where the code does less than it seems to promise

- `DisconnectBlock` restores the index exactly if no transaction of the block was
  indexed before (`MarkedOutputs.DisconnectInvertsConnect`). A block may repeat the id of
  a fully spent transaction; disconnecting it then loses the old entry. A chain of
  252 blocks shows it (`Counterexamples.OverwrittenEntryIsLost`). The claim that the
  index is the replay is therefore about chains that repeat no id. In general it is
  the replay without some fully spent entries, on which every block connects as on
  the replay and which has the same unspent value (`PrunedIndex`). A block that spent
  a lost entry no longer disconnects, and the reorganisation fails
  (`ChainState.Undone`).
- `SetBestChain` reports success, and makes the new block the best, when one of the
  blocks postponed until after the reorganisation fails to connect. The `pnext` links
  then end before the new best block, so that `IsInMainChain` is false for some of its
  ancestors. The index is the replay of the new best chain, and `IsInMainChain` holds
  exactly for the best block and its ancestors, if and only if all of the blocks
  connect (`ChainState.Chain.SetBestChain`). A run of two arriving blocks gets there
  (`Counterexamples.ReachPostponedFailure`); it needs rules that change in between, and
  with constant rules no postponed block fails (`MostTrust.FollowsMostTrust`). In every state, also after such a
  failure, `IsInMainChain` holds for nothing but the best block and its ancestors, and
  the checkpoint is one of them (`ChainState.Chain.Steady`).
- Appending data of 2^32 bytes or more stores a wrapped length, and reading it back
  gives only a part (`ScriptBytes.PushReads`).
- `GetCompact` stores the size of a number in one byte. Encoding a decoded encoding
  again gives the same result for all numbers below 2^2039, and beyond exactly as
  `Compact.ReencodeStable` says; 2^2039 itself is a counterexample
  (`Compact.WrappedSizeIsUnstable`).

## Model

| member | source | states |
|---|---|---|
| Transactions.CheckBlock | src/main.cpp:2149-2187 | accepts exactly the blocks whose first transaction and no other is a coinbase, with a coinstake only in second place, outputs and their sums in range and no id twice |
| MarkedOutputs.SpendMarks | src/main.cpp:1428-1461 | marking the inputs of a transaction changes exactly the named outputs, each to the position of the spender |
| MarkedOutputs.UnspendMarks | src/main.cpp:1207-1228 | clearing the inputs changes exactly the named outputs, each to unspent |
| MarkedOutputs.DisconnectUndoesTx | src/main.cpp:1204-1237 | disconnecting a transaction that was just connected restores the index it was connected to |
| MarkedOutputs.DisconnectUndoesTxs | src/main.cpp:1585-1594 | the same for all transactions of a block in reverse order, spends inside the block included |
| MarkedOutputs.DisconnectErases | src/main.cpp:1230-1234 | a disconnected transaction is not in the index afterwards |
| MarkedOutputs.DisconnectInvertsConnect | src/main.cpp:1585-1739 | disconnecting a block right after connecting it restores the index if and only if no id of the block was indexed before |
| Ledger.ReplayKeys | src/main.cpp:1650-1722 | the index of a replayed chain holds the transactions of its blocks and no others |
| Ledger.DisconnectReplay | src/main.cpp:1585-1594 | disconnecting the last block of a replayed chain gives the replay without it, if the block repeats no id |
| SpendHistory.WhatConnects | src/main.cpp:1387-1489 | a transaction connects exactly if it names different outputs, all existing, unspent, not younger and in range, with a total in range that, unless it is a coinstake, covers its outputs |
| SpendHistory.IndexDescribesChain | src/main.cpp:1399-1461 | on every connected chain each entry has the id and the outputs of the transaction at its place, and each mark names a transaction with that input which is not older |
| SpendHistory.NoOutputSpentTwice | src/main.cpp:1428-1461 | on every connected chain that repeats no id the marked outputs are the inputs of its transactions, each exactly once |
| Minting.SubsidyRises | src/main.cpp:943-954 | the full subsidy starts at one coin and rises with every height up to 575 |
| Minting.SubsidyIsLevel | src/main.cpp:943-954 | it is 400 coins from there to height 26280 |
| Minting.SubsidyFalls | src/main.cpp:943-954 | it never rises again |
| Minting.MintRule | src/main.cpp:1650-1695 | a block whose transactions connect applies exactly if it mints at most the larger of a quarter of the full subsidy and the subsidy less stake debt, for proof of work, or what its coinstake makes, for proof of stake |
| Minting.MintBound | src/main.cpp:1693-1711 | a proof-of-work block raises supply by at most that, and a proof-of-stake block by at most the outputs of its coinstake less the inputs |
| Minting.BlockBooks | src/main.cpp:1697-1711 | a block raises supply by what it mints, books that as stake mint and stake debt exactly if it is proof of stake, and nMint adds the fees to it |
| Minting.DebtIsUnrecovered | src/main.cpp:1699-1711 | on every connected chain supply is what stake and work blocks minted, and the stake debt what stake blocks minted less what work blocks left of their full subsidies |
| Minting.OrdinaryCreatesNothing | src/main.cpp:1387-1489 | a transaction that is neither coinbase nor coinstake never raises the value of the unspent outputs |
| Counterexamples.OverwrittenEntryIsLost | src/main.cpp:1622-1639 | a chain of 252 blocks connects from genesis on, block 251 spending the matured coinbase of block 1 and the last overwriting it, and disconnecting the last does not give the index of the others |
| Supply.FeesCancel | src/main.cpp:1650-1691 | in a proof-of-work block value out less value in is the coinbase less the fees |
| Supply.BlockConserves | src/main.cpp:1693-1711 | a block changes supply less stake debt by the full subsidy of its height if it is proof of work and not at all otherwise |
| Supply.SupplyIsSubsidyPlusDebt | src/main.cpp:1699-1711 | on every connected chain supply less stake debt is the sum of the full subsidies of its proof-of-work heights |
| Supply.EmissionCap | src/main.cpp:943-956 | the full subsidies of any number of proof-of-work heights sum to at most 21,024,000 coins |
| Supply.WorkPaysDebt | src/main.cpp:1693-1711 | a proof-of-work block lowers a positive stake debt by at least the smaller of the debt and three quarters of the subsidy, and never makes a debt positive |
| Supply.SupplyCap | src/main.cpp:1699-1711 | supply never exceeds the emission cap by more than the outstanding stake debt |
| Supply.SupplyIsUnspentTotal | src/main.cpp:1630-1722 | on every connected chain supply is the value of all outputs not marked as spent, repeated ids included |
| PrunedIndex.PrunedApply | src/main.cpp:1613-1739 | a block connects to an index that lacks some fully spent entries exactly if it connects to the full one, with the same counters, and leaves such an index again |
| PrunedIndex.PrunedDisconnect | src/main.cpp:1585-1594 | a successful disconnect takes such an index of a chain to one of the chain without its last block, whatever ids repeat |
| PrunedIndex.PrunedTotal | src/main.cpp:1630-1639 | what is lost is worth nothing: both indexes have the same unspent value |
| BlockConnection.FetchInputs | src/main.cpp:1240-1313 | succeeds exactly for a coinbase or if every input names an existing output, and returns the entries and transactions of the index with the queued changes applied |
| BlockConnection.GetValueIn | src/main.cpp:1328-1340 | the sum of the values of the outputs that are spent, 0 for a coinbase |
| BlockConnection.CheckInputs | src/main.cpp:1397-1424 | passes exactly if no input is younger than the transaction and all values and partial sums are in range |
| BlockConnection.MarkInputs | src/main.cpp:1428-1461 | succeeds exactly if no input is spent already, also by an earlier input of the same transaction, and queues exactly the marks |
| BlockConnection.ConnectInputs | src/main.cpp:1387-1489 | succeeds exactly if the transaction connects, and queues exactly its spends |
| BlockConnection.MayOverwrite | src/main.cpp:1630-1639 | passes exactly if every indexed transaction that the block repeats is fully spent |
| BlockConnection.QueueTx | src/main.cpp:1656-1690 | one turn of the loop over the transactions is one step of the specification, and the database is only read |
| BlockConnection.QueueBlock | src/main.cpp:1644-1691 | the whole loop computes index changes, values and fees of the specification |
| BlockConnection.ConnectBlock | src/main.cpp:1613-1739 | succeeds exactly if the block applies, which Minting.MintRule puts as a bound on what it mints; index and counters are then those of the specification, otherwise the index is unchanged |
| BlockConnection.DisconnectInputs | src/main.cpp:1204-1237 | succeeds exactly if every spent output is found; the index is then the specified one |
| BlockConnection.DisconnectBlock | src/main.cpp:1585-1611 | the same for a whole block, last transaction first |
| BlockConnection.TxDb.TxnAbort | src/main.cpp:1857-1862 | an abort restores the index of the last begin |
| BlockTree.TrustGrows | src/main.cpp:2071 | chain trust never decreases from a block to its descendants |
| BlockTree.TrustIsExpectedWork | src/main.h:1332-1339 | a stake block weighs the number of hashes expected for its target, rounded down, a work block one, and a block without a target nothing |
| BlockTree.HarderWeighsMore | src/main.h:1332-1339 | of two blocks of one kind the one with the lower target weighs no less |
| BlockTree.FindFork | src/main.cpp:1745-1757 | the two-pointer walk terminates at the lowest common ancestor and never runs off the tree |
| BlockTree.SameFork | src/main.cpp:1899-1911 | the postponed search for a first better block does not move the fork point |
| BlockTree.ListDown | src/main.cpp:1761-1772 | the list of blocks between a block and its ancestor |
| BlockTree.DownIs | src/main.cpp:1761-1766 | that list holds exactly the ancestors of the one that the other does not have |
| ChainState.ConnectForward | src/main.cpp:1852-1867 | connecting the next block takes a replayed state to the replayed state of that block, and one that lacks fully spent entries to such a state |
| ChainState.ConnectBackward | src/main.cpp:1777-1786 | disconnecting the last block always succeeds and takes a replayed state to that of the parent |
| ChainState.HeldBackward | src/main.cpp:1777-1786 | whatever ids repeat, a block that disconnects takes a state that lacks fully spent entries to such a state of the parent |
| ChainState.OnlyLastIsHeld | src/main.cpp:1924-1940 | an index that is the replay to one ancestor of a block is the replay to no other |
| ChainState.Chain.SetBestChainInner | src/main.cpp:1852-1874 | in every state a failure changes nothing and success adds one link; from a replayed state, fully spent entries lacking or not, it succeeds exactly if the block connects, and leaves such a state of it |
| ChainState.Chain.BlocksToDisconnect | src/main.cpp:1759-1766 | refuses exactly if the checkpoint would be disconnected |
| ChainState.Chain.DisconnectBranch | src/main.cpp:1777-1786 | from a replayed state it never fails and leaves the replay to the fork; with fully spent entries lacking it succeeds exactly if every block of the branch disconnects, and then leaves such a state of the fork |
| ChainState.Chain.ConnectBranch | src/main.cpp:1793-1811 | from a replayed state, fully spent entries lacking or not, it succeeds exactly if every block of the new branch connects, and leaves such a state of its end |
| ChainState.Chain.Unlink | src/main.cpp:1819-1822 | takes away the pnext links of the old branch: only ancestors of the fork keep one, and complete links to the old tip become complete links to the fork |
| ChainState.Chain.Link | src/main.cpp:1824-1827 | sets those of the new branch, with the same two properties for its end |
| ChainState.Chain.Plan | src/main.cpp:1745-1772 | the lowest common ancestor with the lists of blocks to disconnect and to connect, refused exactly if the checkpoint would be disconnected |
| ChainState.Chain.Reorganize | src/main.cpp:1741-1840 | in every state the checkpoint stays behind the new tip and a failure leaves the links alone and the index as it was or still to be aborted; from a replayed state it succeeds exactly if the checkpoint stays and the new branch connects from the fork, and a failure keeps the counters on the way to the old tip right |
| ChainState.Chain.Postpone | src/main.cpp:1899-1911 | finds the block nearest to genesis that makes the branch the best, and the blocks after it |
| ChainState.Chain.ConnectPostponed | src/main.cpp:1924-1940 | connects postponed blocks up to the first that fails |
| ChainState.Chain.SetBestChain | src/main.cpp:1876-1975 | in every state the checkpoint stays behind the best block, only its ancestors have links, and a failure changes neither index nor links nor best block; from a replayed state it succeeds exactly if the branch connects up to the block where it becomes the best and keeps the checkpoint, and then the index is the replay, and IsInMainChain exact, if and only if the postponed blocks connect too; with repeated ids it succeeds exactly if besides the old branch disconnects, and the accounts and IsInMainChain stay right under the same condition |
| ChainState.Chain.AddToBlockIndex | src/main.cpp:2049-2113 | a block is added once and becomes the best exactly with more trust and a branch that connects as SetBestChain demands; a known block changes nothing; it fails on a new block exactly if that has more trust and does not become the best; replayed index, accounts and exact IsInMainChain are kept if and only if the postponed blocks connect, the accounts and IsInMainChain also with repeated ids |
| ChainState.MainChainIsAncestry | src/main.h:1341-1344 | in every state IsInMainChain holds for nothing but the best block and its ancestors, and with complete links for all of them |
| ChainState.TipAccounts | src/main.cpp:1699-1711 | at every best block whose chain connects, whatever ids repeat, the supply counter is the value of the unspent outputs in the index and the subsidies plus stake debt, and so is capped |
| Counterexamples.PostponedBlockFails | src/main.cpp:1924-1940 | a tree and rules on which the best block moves to a block that does not connect |
| Counterexamples.ReachPostponedFailure | src/main.cpp:1924-1957 | two arriving blocks lead to a best block whose replay the index is not, with IsInMainChain not exact |
| Checkpoints.TraceBack | src/checkpoints.cpp:112-115 | the walk along pprev ends at the ancestor of the wanted height |
| Checkpoints.TraceBackDecides | src/checkpoints.cpp:127-131 | comparing the block it finds decides ancestry |
| Checkpoints.SyncCheckpoint.ValidateSyncCheckpoint | src/checkpoints.cpp:97-137 | in every state accepts exactly the strict descendants of the checkpoint and remembers blocks on other branches as invalid |
| Checkpoints.SyncCheckpoint.CheckSync | src/checkpoints.cpp:215-240 | in every state a block above the checkpoint passes exactly if its parent is the checkpoint or descends from it; at and below its height as the code says |
| Checkpoints.SyncCheckpoint.MoveTo | src/checkpoints.cpp:419-436 | in every state the checkpoint becomes current only after it is the best block or behind it, and moves only to a descendant; a block of the main chain always becomes the checkpoint, and from a replayed state any other exactly if the best block can move to it |
| Checkpoints.SyncCheckpoint.ProcessSyncCheckpoint | src/checkpoints.cpp:393-442 | in every state a message moves the checkpoint to a strict descendant or not at all, and to one in the main chain always; from a replayed state it moves exactly to the known strict descendants that are in the best chain or can become the best block, with repeated ids exactly if besides the old branch disconnects; an unknown block is kept as pending |
| Checkpoints.SyncCheckpoint.AcceptPendingSyncCheckpoint | src/checkpoints.cpp:156-198 | the same, in both directions, for the pending checkpoint, which is cleared when it is refused and kept when it is unknown or does not become the best block |
| Checkpoints.SyncCheckpoint.IndexBlock | src/main.cpp:2220-2263 | in every state a block is put into the tree exactly if it is new, its parent known, its own checks pass and, off the test network, it builds on the checkpoint or a descendant of it; otherwise nothing changes and it fails; from a replayed state the block becomes the best exactly if it has more trust and SetBestChain can move to it, with repeated ids if besides the old branch disconnects; the checkpoint stays where it is and behind the best block |
| Checkpoints.SyncCheckpoint.AcceptBlock | src/main.cpp:2220-2279 | the same of the best block before the look at the pending checkpoint; a refused block changes nothing at all; the checkpoint then moves only to the pending one and only to a strict descendant, and from a replayed state exactly if that is in the best chain or can become the best block |
| Checkpoints.CheckpointOnlyDescends | src/checkpoints.cpp:96-154 | steps that each move the checkpoint to a descendant move it to a descendant over the whole run |
| Checkpoints.SyncCheckpoint.Run | src/checkpoints.cpp:393-442 | in every run of block arrivals and checkpoint messages, from any state and whatever connects, the checkpoint of each moment is an ancestor of every later checkpoint and best block, and the tree ends with the blocks it began with and exactly the arrivals that were taken; from a replayed state every arrival becomes the best block exactly if it overtakes it, as long as what became the best connected; if postponed blocks connect, the run ends, whatever ids repeat, with the replay of the best chain but for fully spent entries and with a supply counter that is its unspent value, and if no id repeats with the replay itself |
| Checkpoints.WhatIsIndexed | src/main.cpp:2220-2263 | the tree after any number of events holds the blocks of the beginning and those that were taken on arrival |
| MostTrust.MovesIfConnects | src/main.cpp:1876-1975 | where the best block has the most trust but for one block, SetBestChain takes that block exactly if it builds on the checkpoint and all of its chain connects, and then postpones nothing |
| MostTrust.FollowsMostTrust | src/main.cpp:2049-2113 | in every run with constant rules, new ids and no checkpoint off the best chain, in whatever order and on whatever branches blocks arrive, the best block connects, no block of the tree that builds on the checkpoint and connects has more trust, and no postponed block fails |
| AddrMan.CAddrMan.constructor | src/addrman.h:381-389 | an empty manager satisfies the invariant |
| AddrMan.CAddrMan.Find | src/addrman.cpp:80-91 | finds an entry exactly if the address is known, and it is the entry with that address |
| AddrMan.CAddrMan.Create | src/addrman.cpp:93-103 | the new entry is in mapInfo, mapAddr and at the end of vRandom |
| AddrMan.CAddrMan.SwapRandom | src/addrman.cpp:105-124 | swaps two places of vRandom, keeps it inverse to the entries and changes nothing else of them |
| AddrMan.CAddrMan.SelectTried | src/addrman.cpp:126-148 | permutes one tried bucket and returns a position in it |
| AddrMan.CAddrMan.DropReference | src/addrman.cpp:191-199 | takes an id out of one new bucket, and out of everything with its last reference, keeping the invariant |
| AddrMan.CAddrMan.ShrinkNew | src/addrman.cpp:150-202 | removes exactly one member of the bucket, a terrible one if there is one and else the oldest of at most four drawn, keeping the invariant |
| AddrMan.CAddrMan.DrawOldest | src/addrman.cpp:175-189 | the oldest of at most four members drawn |
| AddrMan.CAddrMan.MakeTried | src/addrman.cpp:204-260 | moves an entry to its tried bucket, sends at most one tried entry, which it names, back to a new bucket, changes and forgets no other, keeps the invariant |
| AddrMan.CAddrMan.FindBucket | src/addrman.cpp:289-305 | starting from any bucket the search finds one that holds an untried entry |
| AddrMan.CAddrMan.Good | src/addrman.cpp:262-311 | a known address ends up tried with its statistics set; of the others at most one changes, back to untried; an unknown address changes nothing |
| AddrMan.CAddrMan.AddReference | src/addrman.cpp:359-367 | one more bucket holds the entry; at most one other entry is forgotten, and no tried one |
| AddrMan.CAddrMan.Add | src/addrman.cpp:313-369 | true exactly for routable addresses not known before, which are then listed in the bucket they select, with source, services and time less the penalty; a known address gets its new time and services and at most one more reference, and that only if the report is news, it is untried and below the limit; at most one other entry changes or is forgotten, and no tried one is forgotten |
| AddrMan.RefreshMovesForward | src/addrman.cpp:323-332 | a report never makes an entry look older nor takes services away, and renews its time exactly if it is newer by more than the hour or the day |
| AddrMan.CAddrMan.Attempt | src/addrman.cpp:371-388 | counts an attempt on that very address and nothing else |
| AddrMan.CAddrMan.Connected | src/addrman.cpp:510-528 | refreshes the time of that very address if it is older than 20 minutes and nothing else |
| AddrMan.CAddrMan.GetAddr | src/addrman.cpp:494-508 | returns 23% of the entries, rounded down, but at most 2500, each as the entry known under its address, none twice; the entries change nothing but their places |
| AddrManFile.Serialize | src/addrman.h:278-316 | the file lists every untried and every tried entry once, and every new bucket by the places of its members |
| AddrManFile.Deserialize | src/addrman.h:317-377 | reading what was written gives a manager that satisfies the invariant and is the old one with ids renamed: same entries but for nLastTry, same members of every bucket, same counters |
| AddrManCheck.Check | src/addrman.cpp:435-491 | returns 0 exactly if entries, counters, tried buckets and new buckets agree as specified |
| AddrManCheck.CheckTried | src/addrman.cpp:466-474 | leaves nothing exactly if the tried buckets hold every tried id once and nothing else |
| AddrManCheck.CheckNew | src/addrman.cpp:476-485 | leaves nothing exactly if every id is in as many new buckets as its reference count says |
| AddrManCheck.InvariantIsChecked | src/addrman.cpp:435-491 | every manager that satisfies the invariant passes the check |
| ScriptBytes.GetOp | src/script.h:396-447 | the instruction at pc and the place after it, or none if the bytes end early |
| ScriptBytes.ReadPrinted | src/script.h:396-447 | every instruction reads back from its bytes, whatever follows |
| ScriptBytes.PrintRead | src/script.h:396-447 | what was read prints as the bytes it was read from |
| ScriptBytes.PushReads | src/script.h:333-358 | appended data reads back as that data if and only if it is shorter than 2^32 bytes |
| ScriptBytes.PrintParsed | src/script.h:396-447 | printing a parsed script gives the script back, malformed tail included |
| ScriptBytes.ParsePrinted | src/script.h:396-447 | parsing printed instructions gives them back, up to a malformed tail |
| ScriptBytes.CScript.AppendData | src/script.h:333-358 | appends the data in the shortest of the four push forms |
| ScriptBytes.PushIsShortest | src/script.h:333-358 | no instruction that pushes the data is shorter |
| ScriptBytes.CScript.FindAndDelete | src/script.h:465-482 | deletes the pattern wherever it stands at an instruction boundary, and counts the deletions |
| ScriptBytes.DeletedIsFiltered | src/script.h:465-482 | deleting one instruction is filtering the instruction list; a malformed tail stays |
| ScriptBytes.DeletedTwice | src/script.h:465-482 | a second deletion changes nothing |
| ScriptNumbers.DecodeEncoded | src/bignum.h:245-270 | a number put on the stack is read back as itself |
| ScriptNumbers.CastToBool | src/script.cpp:42-55 | the loop decides truth |
| ScriptNumbers.TruthIsNonZero | src/script.cpp:42-55 | an item is true exactly if its number is not zero, negative zeros included |
| ScriptNumbers.CastToNum | src/script.cpp:34-40 | items of more than four bytes are refused; the others are below 2^32 |
| Multisig.CheckMultisig | src/script.cpp:978-997 | the loop computes the greedy matching and the number of checks made |
| Multisig.GreedyDecides | src/script.cpp:978-997 | it succeeds if and only if the signatures can be assigned to keys in order, no key used twice, for any relation between them |
| Multisig.CallsBound | src/script.cpp:978-997 | no key is tried twice |
| ScriptMachine.ExecuteCheckMany | src/script.cpp:940-1011 | OP_CHECKMULTISIG with its loops does what the specification says |
| ScriptMachine.CheckManyDecides | src/script.cpp:940-1011 | it pushes true if and only if there is an assignment of the signatures to the keys |
| ScriptMachine.VerifyForms | src/script.cpp:695-1011 | on every machine the verifying form of an operator is the operator followed by OP_VERIFY: same items, same failures, same signature checks |
| ScriptMachine.RotationsReturn | src/script.cpp:453-570 | swapping twice and rotating three times leave the machine as it was, for items and for pairs |
| ScriptMachine.PickAndRoll | src/script.cpp:533-549 | OP_PICK copies and OP_ROLL moves the item at the given depth, the others keep their order |
| ScriptMachine.Interpret | src/script.cpp:258-1019 | one turn of the interpreter loop |
| ScriptMachine.EvalScript | src/script.cpp:239-1032 | accepts exactly the scripts whose flat run ends well, and makes the signature checks of that run, also when it fails; what the single operators of that run do is stated in ScriptOperators, and of whole spends in ScriptSpends |
| ScriptMachine.StepWithinLimits | src/script.cpp:258-1019 | every completed step keeps at most 1000 items, 520 bytes an item and 201 counted operators |
| ScriptMachine.RunWithinLimits | src/script.cpp:256-1020 | so does every run up to any point it reaches, accepted in the end or not |
| ScriptMachine.EvalWithinLimits | src/script.cpp:239-1032 | an accepted script leaves a stack within the limits |
| ScriptMachine.AcceptedIsClean | src/script.cpp:249-287 | an accepted script has at most 10000 bytes and 201 operators, can be read to its end, and holds nowhere, executed or skipped, a disabled operator or a push of more than 520 bytes |
| ScriptOperators.SmallStackEffects | src/script.cpp:363-583 | what the operators on one and two items leave, whatever lies below |
| ScriptOperators.LargeStackEffects | src/script.cpp:427-561 | the same for three, four and six items |
| ScriptOperators.ReadingEffects | src/script.cpp:487-720 | sizes, depths and comparisons of items |
| ScriptOperators.DigestEffects | src/script.cpp:866-896 | each digest operator replaces an item by its digest of 20 or 32 bytes |
| ScriptOperators.ConstantEffects | src/script.cpp:295-317 | the constants -1 and 1 to 16 push a single byte |
| ScriptOperators.AltStackReturns | src/script.cpp:387-403 | an item put on the other stack comes back from it |
| ScriptOperators.NumberFits | src/script.cpp:34-40 | a number can be an operand exactly if it is below 2^31 in absolute value |
| ScriptOperators.UnaryEffects | src/script.cpp:727-755 | the operators on one encoded number |
| ScriptOperators.BinaryEffects | src/script.cpp:757-844 | sum, difference, least and greatest of two encoded numbers, and the comparison that must hold |
| ScriptOperators.ComparisonEffects | src/script.cpp:819-829 | the comparisons of two encoded numbers |
| ScriptOperators.LogicEffects | src/script.cpp:819-862 | both, either, and a range without its upper end |
| ScriptOperators.LongOperandFails | src/script.cpp:34-40 | a numeric operator fails exactly if an operand is longer than four bytes |
| ScriptNesting.FlatRefinesTree | src/script.cpp:256-361 | the flat run of a tree of conditionals executes exactly the instructions the tree selects, repeated OP_ELSE toggling between its arms, with the same result |
| ScriptNesting.AcceptedNests | src/script.cpp:328-361 | in every accepted script the conditionals nest properly |
| ScriptNesting.AcceptsTrees | src/script.cpp:239-1032 | a script is accepted if and only if it can be read to its end and forms a tree whose run succeeds |
| ScriptSigOps.GetSigOpCount | src/script.cpp:1640-1662 | the loop computes the count, up to the first unreadable byte |
| ScriptSigOps.AccurateIsLower | src/script.cpp:1652-1657 | the accurate count is at most the plain one |
| ScriptSigOps.CallsAreCounted | src/script.cpp:905-1011 | for every script, stack and signature relation the checks made, also on a failing run, are at most the accurate count |
| ScriptSigOps.CountsAddUp | src/script.cpp:1640-1662 | the counts of scripts joined end to end add up, the accurate one with the last opcode carried over |
| ScriptSigOps.StraightCountIsExact | src/script.cpp:905-938 | a script without conditionals and multisignature checks that runs to its end makes exactly the checks counted |
| ScriptSigOps.GetSpendSigOpCount | src/script.cpp:1664-1686 | the count for a spend, with the redeem script found in the last push |
| ScriptSigOps.IsPushOnly | src/script.h:507-519 | decides whether every instruction is read and pushes |
| ScriptSigOps.VerifyScript | src/script.cpp:1546-1579 | runs the two scripts and the redeem script; the checks made are within the two counts |
| ScriptSigOps.VerifyCallsAreCounted | src/script.cpp:1546-1579 | the checks made in verifying a spend are at most the counts of the two scripts, pay to script hash included |
| ScriptSpends.PayToKey | src/script.cpp:1546-1579 | an output to a key is spent exactly if the top item that the spending script leaves signs for the key |
| ScriptSpends.PayToKeyHash | src/script.cpp:1546-1579 | an output to a key hash is spent exactly if the top item has that hash and the item below it signs for it |
| ScriptSpends.KeySpend | src/script.cpp:1546-1579 | one pushed signature spends an output to a key exactly if it is within 520 bytes and signs for the key |
| ScriptSpends.KeyHashSpend | src/script.cpp:1546-1579 | a pushed signature and a pushed key spend an output to a key hash exactly if the key has the hash and the signature signs for it |
| ScriptSpends.PushedLastDecides | src/script.h:507-519 | being push-only means that all instructions can be read and push |
| ScriptSpends.PayToScriptHash | src/script.cpp:1546-1579 | an output to a script hash is spent exactly if the spending script only pushes, its last item has that hash, and run on the items below it that item ends with a true value |
| ScriptSpends.IfChooses | src/script.cpp:328-361 | OP_IF runs its first arm on a number that is not zero and its second on zero, OP_NOTIF the other way round |
| ScriptSpends.SeparatedKey | src/script.cpp:898-938 | behind a code separator a signature covers only what follows |
| ScriptMultisig.SignaturesAreDeleted | src/script.cpp:968-976 | the code that is signed is the script without the pushes of the signatures, in whatever order they are deleted |
| ScriptMultisig.CheckManySigns | src/script.cpp:940-1011 | OP_CHECKMULTISIG takes the dummy, the signatures, the keys and both numbers off the stack and answers whether the signatures sign, in order, for different keys |
| ScriptMultisig.OneOfOne | src/script.cpp:905-1011 | with one signature and one key it answers what OP_CHECKSIG answers |
| ScriptMultisig.PayToMultisig | src/script.cpp:940-1011 | an m-of-n output is spent exactly if the spending script leaves a dummy and m signatures on top that sign, in order, for m of the n keys |
| ScriptMultisig.MultisigSpend | src/script.cpp:1546-1579 | in particular by an empty item and m pushed signatures |
| ScriptMultisig.MultisigCount | src/script.cpp:1640-1662 | an m-of-n script counts as n signature checks accurately and as 20 plainly |
| Merkle.CBlock.BuildMerkleTree | src/main.h:1026-1043 | fills vMerkleTree with all levels and returns the root |
| Merkle.RootOfHalves | src/main.h:1026-1043 | the root over two full halves is the hash of their roots, the left one first |
| Merkle.OddLevelRepeats | src/main.h:1032-1036 | on a level of odd length the last digest counts twice |
| Merkle.CBlock.GetMerkleBranch | src/main.h:1045-1059 | the partners of an index on every level |
| Merkle.CheckMerkleBranch | src/main.h:1061-1074 | the digest that a branch leads to |
| Merkle.BranchLeadsToRoot | src/main.h:1026-1074 | the branch of every transaction leads to the root, odd levels included |
| Merkle.OnlyTheLeafChecks | src/main.h:1061-1074 | without collisions only the transaction at that index checks, and only with its own branch |
| Merkle.WhatChecksIsALeaf | src/main.h:1061-1074 | without collisions whatever checks with a branch of tree depth is a transaction of the block |
| MedianTime.GetMedianTimePast | src/main.h:1368-1380 | the middle of the sorted times of up to eleven blocks |
| MedianTime.MedianRank | src/main.h:1368-1380 | the median is at most a time exactly if more than half of the window is |
| MedianTime.MedianNeverDecreases | src/main.cpp:2239 | an accepted block's median time is not before its predecessor's, while the window grows and after |
| MedianTime.LaterThanAncestors | src/main.cpp:2239 | every block is later than the median time of all its ancestors and later than the genesis block |
| Compact.SetCompact | src/bignum.h:272-282 | the number that the byte buffer stands for |
| Compact.GetCompact | src/bignum.h:284-295 | size byte and three leading bytes, the size modulo 256 |
| Compact.CompactIsFloat | src/bignum.h:272-282 | a compact target is its 23-bit mantissa times 256 to the power of its size less three, with the sign bit between |
| Compact.EncodeDecoded | src/bignum.h:245-270 | a minimal encoding is the encoding of its number |
| Compact.ReencodeStable | src/bignum.h:272-295 | encoding, decoding and encoding again gives the first encoding, with the exact exception for numbers of 256 bytes and more |
| Compact.WrappedSizeIsUnstable | src/bignum.h:284-295 | 2^2039 is such an exception |
| Compact.RoundsDown | src/bignum.h:272-295 | below 256 bytes the decoded value is the number rounded down to a multiple of the unit of its size |
| Compact.NeverAbove | src/bignum.h:272-295 | the decoded value is never above the number |
| Compact.GreatestBelow | src/bignum.h:272-295 | it is the greatest value with a compact form that is not above the number |
| Retarget.GetLastBlockIndex2 | src/main.cpp:1019-1024 | the last block of the wanted kind |
| Retarget.MainNetLimits | src/main.cpp:49-61 | the limits of the main network are in the order that the range results ask for |
| Retarget.GetNextTargetRequired | src/main.cpp:1037-1137 | the compact form of the specified target, which TargetResponse states as mean target times time taken over time wanted; the timespan is the difference of its end points |
| Retarget.AverageWithin | src/main.cpp:1076-1094 | the running average stays within any bounds on the targets read |
| Retarget.ClampBounds | src/main.cpp:1111-1123 | the clamped timespan is between a third and three times the wanted one |
| Retarget.AdjustedBounds | src/main.cpp:1071-1125 | the averaged target is between a third of the lowest and three times the highest target read |
| Retarget.TargetsInRange | src/main.cpp:1127-1146 | on every chain whose targets AcceptBlock accepts each decoded target is within the limit |
| TargetResponse.SpanIsWanted | src/main.cpp:1096-1109 | the time wanted is two minutes a stake block, and for work five minutes a block and two for each stake block on the way, at most two hours a work block |
| TargetResponse.ClampIsLimited | src/main.cpp:1111-1123 | the time taken counts as at most a factor of 1 + n / 12 off the time wanted, rounded down to seconds |
| TargetResponse.PastIs | src/main.cpp:1071-1094 | the window is the last 24 blocks of the kind, or all but the first, one after the other |
| TargetResponse.AverageIsMean | src/main.cpp:1076-1086 | the running average is the mean of the targets but for less than n / 2 lost in rounding |
| TargetResponse.NextIsProportional | src/main.cpp:1111-1129 | the next target is the mean target times the time that counts over the time wanted, rounded down, or the limit if that is lower |
| TargetResponse.RoundedGrows | src/bignum.h:272-295 | writing targets in compact form keeps their order |
| TargetResponse.TargetFollowsTime | src/main.cpp:1111-1129 | the decoded next target is at most the mean after blocks that came too fast, at least the mean or the limit after blocks that came too slow, and the mean or the limit after blocks in time, each as far as the compact form holds it |
| TargetResponse.LaterIsEasier | src/main.cpp:1088-1129 | the decoded next target never decreases as the time of the last block grows |
| TargetResponse.MeanInRange | src/main.cpp:1076-1094 | on every chain whose targets were accepted the mean is not negative and within the limit |
| TargetResponse.FixedTargets | src/main.cpp:1052-1069 | where nothing is averaged the target is the fixed one of the network |
| StakeModifier.GetStakeModifierSelectionInterval | src/kernel.cpp:67-73 | the sum of all sections |
| StakeModifier.SectionsGrow | src/kernel.cpp:60-64 | the sections grow from a third of the modifier interval to the whole of it |
| StakeModifier.StakeIsFavoured | src/kernel.cpp:97-106 | a stake block has the lower selection hash unless the hash of the work block is lower by a factor of 2^32 |
| StakeModifier.StakeWins | src/kernel.cpp:97-117 | a work block wins a round over a stake block only with a hash lower by a factor of 2^32 |
| StakeModifier.GetLastStakeModifier | src/kernel.cpp:46-57 | modifier and time of the last renewal; fails exactly if even the genesis block has none |
| StakeModifier.SelectBlockFromCandidates | src/kernel.cpp:78-122 | selects exactly if a candidate is left: the earliest with the lowest selection hash among those up to the stop and the first one left |
| StakeModifier.ComputeNextStakeModifier | src/kernel.cpp:137-249 | never fails; renews exactly by the rule; then picks as many blocks as there are candidates but at most 64, round by round, and gathers their entropy bits |
| StakeModifier.GatheredBit | src/kernel.cpp:210-211 | bit k of the modifier is the entropy bit of the block of round k |
| StakeModifier.PicksAreDistinct | src/kernel.cpp:212-213 | no block is picked twice |
| StakeModifier.PicksAreDetermined | src/kernel.cpp:199-217 | the picks depend on the block and its predecessors only |
| StakeModifier.RenewalsInNewIntervals | src/kernel.cpp:156-182 | under the v0.4 rules the renewals lie in strictly increasing modifier intervals |
| StakeModifier.NoRenewalMissed | src/kernel.cpp:156-182 | after every block the last renewal is no further back than the interval of that block or of its predecessor |
| StakeModifier.SelectionEnds | src/kernel.cpp:184-190 | the selection ends where the modifier interval of the predecessor begins |
| StakeModifier.CollectedAre | src/kernel.cpp:184-196 | the candidates are the predecessors back to the first that is too old |
| StakeModifier.GetKernelStakeModifier | src/kernel.cpp:253-283 | the modifier of the first renewal at least a selection interval later on the main chain, or failure if there is none |

## Left out

- Networking, RPC, user interface, wallet, mining and start-up repair (`ResetSyncCheckpoint`, `LoadBlockIndex`).
- Cryptography: hashes are numbers or arbitrary functions, signature checks an arbitrary relation.
- Checks that only reject (signatures, proof-of-work and block hashes, clocks, coin age and the stake reward limit, maturity, sizes, script cost, stake modifier checkpoints): one arbitrary predicate for each block, input and coinstake.
- The memory pool, `SyncWithWallets`, `ProcessTxInfos` and `UndoTxInfos`, and the block index records on disk: they do not feed back into the index or the counters.
- Failing reads and writes of disk and database; every stored block can be read.
- Machine integers: money, times, sizes and counters are unbounded, except where wrap-around is named (compact sizes, push lengths).
- ChainState.Chain.SetBestChain: after a postponed block failed to connect nothing is claimed of the index and the counters, because those of the best block are then not set; checkpoint and links are covered in every state.
- AddrMan.CAddrMan.SelectTried: does not state which entry is preferred, because the recorded position is taken after a swap and so does not name the oldest one; it states that the bucket is permuted and the position in range.
- Selection of addresses to connect to (`GetChance`, `Select_`).
- AddrManFile.Deserialize: only files that `Serialize` writes, with the same number of buckets.
- AddrManCheck.Check: the lookup `mapAddr[...]` inserts a missing address; the model only gives it the value 0.
- Retarget.GetNextTargetRequired: the adjustment factor is an exact fraction, not a `double`.
- StakeModifier.ComputeNextStakeModifier: candidates are index entries rather than hashes looked up in `mapBlockIndex`, so the failure for a missing entry does not arise.
- Script templates (`Solver`), signing, signature hashes and standardness rules.

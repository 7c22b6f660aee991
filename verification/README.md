# BitClone, verified

BitClone is a Bitcoin engine in Python. This project models its hard core in Dafny 4.11 and proves
what that core is for. `dafny verify dfyconfig.toml` checks everything.

- **Chain state and reorganisation** (`ChainTypes`, `BlockTree`, `UtxoDelta`, `BlockRules`,
  `ChainDatabase`, `ChainInvariant`, `ChainHistory`, `OrphanBlocks`, `Blockchain`, `BestChain`, `RunInvariants`,
  `CoinHistory`, `Chainwork`, `PlainBlocks`, `HeaderFirst`, `Supply`, `Difficulty`, `TargetBits`).
  An indexed block tree, one active path, a UTXO table changed block by block and undo records, over
  SQL tables modelled as maps of a class. Every run, with side blocks, orphans released recursively and
  successful or failed reorganisations, keeps the table equal to the replay of the active path. No stored
  branch that has more work and validates is left aside, under these conditions: no block comes while its
  parent is only a header, every block creates an output, the clock does not run backwards, and the checks
  kept arbitrary settle, that is, from the first check a block has passed they judge it by the chain below
  it alone. Checks with the program's test against the clock settle (`BestChain.ClockSettles`).
  What the tables and numbers mean is stated apart from how they are computed: a row shows what the last
  transaction to make the output made (`CoinHistory`), work is the number of times a target goes into 2^256,
  summed along the branch (`Chainwork`), and targets scale with time once per 2016 blocks (`Difficulty`).
- **Mempool** (`MempoolGraph`, `MempoolIndex`, `MempoolOrder`, `MempoolPolicy`, `MempoolEdit`,
  `MempoolPackages`, `Mempool`, `AdmissionRules`). Cached ancestor and descendant lists are the true closure; admission,
  BIP125 replacement, trimming and template building are proved on top of that, and `AdmissionRules` says
  exactly which transactions are accepted without the caches.
- **Script conditionals and traces** (`ByteStream`, `ScriptSemantics`, `ScriptTrace`, `ScriptEngine`, `ScriptMeaning`).
  Cutting the selected branch out of the byte stream and recursing refines the interpreter with a stack of
  conditions, and does what a structured program means; tracing is transparent, and traces pass their own
  checks.
- **Number theory and coding** (`ModularArithmetic`, `SquareRoots`, `PubKeys`, `Bech32`, `Bech32Text`,
  `ConvertBits`).
  Fermat's theorem and the existence of a non-residue are proved, not assumed.
- **Block files** (`BlockFiles`, `BlockStore`): crash recovery of append-only files.
- **Merkle trees and serialisation** (`Merkle`, `TxCodec`, `TxStream`, `TxInspector`).

Code that changes state is a class or a method with loops, proved against functions and predicates;
the theorems are lemmas about those. Hashes, proof of work, script opcodes, signatures, timestamps,
witness commitments and the merkle check of a block are arbitrary functions (the fields of `Rules`,
`Checks`, the opcode step `Ordinary`, the hash of a Merkle tree), so the results hold whatever they do.
A Python exception, a `False` and success are kept apart wherever the caller tells them apart: only
`False` marks a candidate branch invalid during a reorganisation, and only from the block that failed
(`ChainHistory.Stopped`, and over whole runs `RunInvariants.InvalidOnlyWhen`).

What the code does where one might expect otherwise, each with a proof of exactly when, unless the item says
that only one direction is proved:

- Disconnecting a block restores the table if and only if the block overwrote nothing or is a BIP30
  exception (`UtxoDelta.UndoIsInverse`).
- A child's body that comes while its parent is only a header is stored but not switched to, and storing the
  parent's body later tries the parent alone: a branch with more work, complete and valid, stays aside
  (`HeaderFirst.LeavesBetterBranch`). The same attempt succeeds exactly when every record of the branch is
  stored (`BestChain.AdoptedWhen`).
- An active block that creates no output leaves an undo record without rows, which cannot be read back, so no
  branch beside it can be switched to (`HeaderFirst.EmptyBlockStays`; exactly when in `BestChain.AdoptedWhen`).
- A block that is stored and then turned down releases no orphans. A step that stores a block releases what
  waits for it exactly when it takes it (`RunInvariants.StaysExactlyWhen`), and an orphan can keep waiting for
  a block that has become active since (`HeaderFirst.OrphanStays`).
- The coinbase cap uses the subsidy of the parent's height, so the first block after genesis is capped
  as if it were at height 0 and the caps together pay one initial subsidy more than the schedule. They
  exceed MAX_MONEY from block 3,937,917 on (`Supply.CapsWithinMaxMoney`).
- Compact targets survive the round trip from 2^15 on; below, expanding raises
  (`TargetBits.CompactRoundTrip`).
- A replacement may spend an output of an entry that it evicts, and is then pooled with an input that does
  not exist (`MempoolPolicy.EvictedInputExample`, with the exact condition in `AdmittedResolvable`).
- A pooled transaction that already spends an output of a newcomer is not linked to it
  (`MempoolGraph.ChildFirstExample`, exactly when in `InsertKeepsClosure`), and removing an entry between
  ancestors and descendants leaves links listed that the pool no longer has (`MiddleRemovedExample`, exactly
  when in `RemoveOneKeepsClosure`).
- A second OP_ELSE does not switch back: what follows it joins the else branch, and its trace offsets are
  wrong (`ScriptSemantics.SecondElseDiffers`, `ScriptTrace.SecondElseMisplaces`). At most one OP_ELSE is enough
  for the usual reading and for right offsets, and is not necessary: `CutIsUsual` and `TracesPointIntoScript`
  go one way. What the code does with any script is stated exactly, as the condition stack with later OP_ELSE
  ignored (`ScriptSemantics.CutIsFlat`). A final stack item of more than four bytes raises instead of counting as true (`ScriptEngine.Engine.ValidateStack`).
- A transaction without inputs raises an IndexError out of admission (category `Raised` of
  `MempoolPolicy.Decision`).
- Decoding the odd form of a point with y = 0 yields y = p (`PubKeys.FromCompressed`).

## Model

| member | source | states |
|---|---|---|
| Blockchain.Run | src/blockchain/blockchain.py:313-541 | After every run of blocks and headers from an empty database: the UTXO table is the replay of the active path, every active block's stored undo record is one built against its parent's table, the active rows are that one path with one row per height, and each block on it passed validation on top of the ones before it. The run is a sequence of steps, one for each event in order and one for each released orphan, each exactly as `ChainHistory.IsStep` describes: tables, active path, index flags and the blocks that wait afterwards; when the events come in order of time so do the steps |
| Blockchain.Blockchain.AddBlock | src/blockchain/blockchain.py:416-466 | Handles the block as `ChainHistory.HandledBlock` describes (known, on the tip, aside, or held as an orphan when its parent is unknown and it passes the orphan check) and, exactly when it is taken, then gives every orphan that waited for it to itself; keeps the whole invariant, never lowers the active tip's work, never drops a body, and leaves no orphan waiting for a block just taken |
| Blockchain.Blockchain.PlaceBlock | src/blockchain/blockchain.py:422-462 | The block's own handling, one step: on the tip exactly when it connects, aside exactly when it can be stored, and with an unknown parent and a passing orphan check among the orphans as `OrphanBlocks.Held` says, else nothing changes |
| Blockchain.Blockchain.AddSideBlock | src/blockchain/blockchain.py:437-462 | Stored exactly when the preliminary checks pass and its work can be recorded, otherwise nothing changes; with more work the switch happens, or the stored block is turned down: for a missing record, and then nothing is marked, or at a block of its branch that does not validate on its own ancestors, and then that block and its descendants are marked invalid exactly when validation returned False |
| Blockchain.Blockchain.ReorganizeTo | src/blockchain/blockchain.py:313-388 | On success there was a plan and more work, and the active chain is exactly the ancestry of the candidate; it fails only when there is not more work, a record is missing, or a block of the branch does not validate in a consistent state whose active chain is its own ancestors. On failure path, UTXOs, undo rows and all four cached fields are as before; in the last case that very block and its descendants are marked invalid when validation returned False, and the index is unchanged when it raised and in all other cases |
| Blockchain.Blockchain.ConnectTipBlock | src/blockchain/blockchain.py:468-486 | Accepted exactly when validation passes, the block is not stored and its work can be recorded; then the path grows by it, otherwise the whole database is unchanged |
| Blockchain.Blockchain.PlanReorganization | src/blockchain/blockchain.py:322-338 | Goes ahead with the lists above the fork, or else there is not more work or no complete set of bodies and undo records, whatever lists one tries |
| Blockchain.Blockchain.ConnectBranch | src/blockchain/blockchain.py:360-379 | Connects candidates in order; when it stops, the block it stopped at does not validate on exactly the blocks connected so far |
| Blockchain.Blockchain.DisconnectBranch | src/blockchain/blockchain.py:344-358 | Takes exactly the listed blocks off, tip first, and keeps every invariant after each |
| Blockchain.Blockchain.DisconnectTip | src/blockchain/blockchain.py:345-358 | Undoing the tip with its stored record leaves the replay of the shorter path and the cached tip of its parent |
| Blockchain.Blockchain.ActivateCandidate | src/blockchain/blockchain.py:360-379 | Activates a stored block exactly when it validates as the next one; otherwise nothing changes |
| Blockchain.Blockchain.Abandon | src/blockchain/blockchain.py:380-388 | A failed switch restores tables and cache; the branch of the candidate that failed is marked invalid, exactly it and its descendants, and without one the index is as saved |
| Blockchain.Blockchain.RollBack | src/blockchain/blockchain.py:380-382 | The saved tables come back and the cache again describes the old path |
| Blockchain.Blockchain.WouldReorganizeTo | src/blockchain/blockchain.py:298-311 | True exactly for an indexed, inactive, not invalid block with strictly more chainwork than the tip |
| Blockchain.Blockchain.SetCachedTip | src/blockchain/blockchain.py:553-561 | Height, tip, the subsidy of the tip's own height and the target of the tip's bits |
| Blockchain.Blockchain.ProcessOrphanChildren | src/blockchain/blockchain.py:539-541 | Every orphan that waited for the parent is given to AddBlock, recursively, and nothing but waiting orphans is; none of them is left and none is added |
| Blockchain.Blockchain.AddHeader | src/blockchain/blockchain.py:239-277 | A header is indexed exactly when its parent is known, it is new, the checkpoint matches, its own checks passed and its work can be recorded; the active chain does not change |
| Blockchain.Blockchain.ValidateBlock | src/blockchain/blockchain.py:642-719 | Passes exactly when the block is sound on top of the path and the uninterpreted checks accept |
| Blockchain.Blockchain.ValidateHeader | src/blockchain/blockchain.py:651-679 | Passes exactly for a matching checkpoint, parent and expected bits, and accepting header rules |
| Blockchain.Blockchain.ValidateBody | src/blockchain/blockchain.py:692-717 | Passes exactly when ids are distinct, BIP30 holds or is excepted, the coinbase is within its cap and every transaction is valid where it stands |
| Blockchain.Blockchain.ValidateCoinbase | src/blockchain/blockchain.py:967-1003 | One coinbase, first, paying at most the cached subsidy (of the parent's height) plus fees looked up in the pre-block table |
| BlockRules.VerdictPasses | src/blockchain/blockchain.py:642-719 | The verdict, which keeps False and exceptions apart, is acceptance exactly when the block is sound on top of the path and the uninterpreted checks accept |
| Blockchain.Blockchain.ExpectedBitsForHeight | src/blockchain/blockchain.py:788-808 | The bits computed from cache and database are those the path determines |
| Blockchain.Blockchain.constructor | src/blockchain/blockchain.py:78-110 | An empty database gives the empty path with the genesis target cached |
| BlockTree.ReorganizationPaths | src/blockchain/blockchain.py:390-412 | Terminates and returns the lowest common ancestor, exactly the active entries above it tip-first, and exactly the candidate's entries above it fork-first |
| BlockTree.AncestorsAgreeBelow | src/blockchain/blockchain.py:397-411 | Two branches with a common ancestor coincide below it |
| ChainInvariant.SwitchUnique | src/blockchain/blockchain.py:390-412 | The fork and both lists are determined by the index and the active path |
| ChainInvariant.ReorgDone | src/blockchain/blockchain.py:344-388 | The disconnected and reconnected path is the candidate's whole ancestry, with strictly more work |
| ChainInvariant.PlanObstructed | src/blockchain/blockchain.py:360-366 | A switch that stops part of the way has met a block that does not validate in a consistent state of the same rows and bodies whose active chain is the block's own ancestors, and that block is the ancestor of the target at that height |
| BestChain.BestChain | src/blockchain/blockchain.py:416-466 | The active chain is a best one: in every run in time order in which no block comes while its parent is only a header and every block creates an output, under checks that settle, every stored block has no more work than the tip or has a block on its branch that does not validate |
| Chainwork.MostWork | src/blockchain/blockchain.py:416-466 | The same in terms of targets: under those conditions no stored branch that validates adds up to more work than the active chain |
| BestChain.LeftAsideWhen | src/blockchain/blockchain.py:437-462 | In every run in time order, under checks that settle: a stored block with more work and nothing that obstructs it is left aside only if it came when a record of its branch was missing |
| BestChain.AdoptedWhen | src/blockchain/blockchain.py:313-388 | One attempt, exactly: a branch that nothing obstructs is adopted if and only if it has more work and all its bodies, and usable undo records of the active blocks off it, are stored |
| BestChain.PlanWhen | src/blockchain/blockchain.py:328-338 | The bodies and undo records a switch takes are all at hand exactly when the branch is stored |
| BestChain.Weighed | src/blockchain/blockchain.py:298-311 | Every stored block is outweighed by the active tip or was turned down, for a reason and untaken, when it came |
| BestChain.StaysObstructed | src/blockchain/blockchain.py:380-388 | A branch of admitted blocks that was obstructed stays so, at any later time and on any later tables, under checks that settle |
| BestChain.ClockSettles | src/blockchain/blockchain.py:746-762 | Adding the future-time test, in both places that make it, to checks that do not read the clock gives checks that settle, although they change their mind as time goes by |
| BestChain.StoredIsAdmitted | src/blockchain/blockchain.py:437-486 | Every block that a run has stored passed its preliminary or contextual checks by then |
| PlainBlocks.ClockTestSettles | src/blockchain/blockchain.py:757 | Rules with the two hour test meet what `BestChain.BestChain` asks of rules, and do judge one block differently at two times |
| RunInvariants.InvalidOnlyWhen | src/blockchain/blockchain.py:366-385 | In every run: a row is marked invalid only if it is, or descends from, a block for which validation returned False, at some step, in a consistent state whose active chain is the block's own ancestors |
| RunInvariants.WaitsForTurnedDown | src/blockchain/blockchain.py:456-461 | In every run: an orphan waits for a stored block only if that block was turned down when it came |
| RunInvariants.StaysExactlyWhen | src/blockchain/blockchain.py:539-541 | A step that stores a block leaves an orphan of it waiting if and only if the block is turned down |
| RunInvariants.RowsMatch | src/blockchain/blockchain.py:239-277 | In every run each row at the height of a checkpoint is that checkpoint, on whatever branch |
| RunInvariants.InvalidNotStored | src/blockchain/blockchain.py:424-429 | No step stores a block whose row is marked invalid |
| HeaderFirst.LeavesBetterBranch | src/blockchain/blockchain.py:437-462 | A run of six events after which a stored branch with more work, complete and valid, is not the active one, and an orphan waits for a stored block |
| HeaderFirst.ParentIsStored | src/blockchain/blockchain.py:450-462 | Storing the missing parent tries the parent alone |
| HeaderFirst.OrphanStays | src/blockchain/blockchain.py:456-461 | One event later the branch is active, and the orphan still waits for its parent, which is on it |
| HeaderFirst.EmptyBlockStays | src/blockchain/blockchain.py:328-338 | A run in which blocks come parents first and a complete, unobstructed branch with more work is left aside, because the active block has no output and so no undo record that can be read back |
| BlockRules.ValidateBlockTxs | src/blockchain/blockchain.py:1112-1135 | Passes exactly when every regular transaction is valid against the table overlaid with earlier outputs of the block and no outpoint is spent twice in the block |
| BlockRules.ValidateTx | src/blockchain/blockchain.py:1137-1187 | One transaction passes exactly when its inputs resolve, its structure, fee, maturity and inputs are right and nothing earlier in the block spent them; the shared set of spent outpoints grows by exactly its inputs |
| BlockRules.CheckInputs | src/tx/validation.py:70-93 | The input loop finds exactly the duplicate, double-spent and immature inputs |
| UtxoDelta.UndoIsInverse | src/blockchain/blockchain.py:565-596 | For every table, block and record it builds: disconnecting restores the table if and only if the block is a BIP30 exception or overwrites no unspent output |
| UtxoDelta.BuildBlockUndo | src/blockchain/blockchain.py:565-596 | Lists the created outpoints in block order and each row that is spent (and, for an exception, overwritten) exactly once |
| UtxoDelta.BlockUtxoDelta | src/blockchain/blockchain.py:598-626 | The spent set and the surviving created rows of the block, with the created keys of an exception among the spent |
| UtxoDelta.DeltaIsApply | src/database/database.py:469-493 | Deleting the spent rows and inserting the created ones is adding everything the block creates and removing everything it spends |
| UtxoDelta.DeltaInserts | src/database/database.py:469-493 | For a block that passes BIP30 or is excepted no insertion meets a taken key |
| CoinHistory.TableIs | src/blockchain/blockchain.py:598-626 | For every path and output: it is in the table if and only if some transaction made it, none made it again later, and no non-coinbase input has taken it from that block on; its row shows that output's amount and script, the height of the block, and whether the transaction had the one null input of a coinbase |
| CoinHistory.SpendsHaveSources | src/blockchain/blockchain.py:1112-1187 | In every accepted chain the first transaction of each block, and no other, is a coinbase, and every input of the others takes an output that was made before it and not taken since, worth at most 21 million coins, and made by a coinbase only at least 100 blocks before |
| CoinHistory.TakenOnce | src/blockchain/blockchain.py:1112-1135 | In every accepted chain, between two inputs that take one outpoint it has been made again in a later block |
| CoinHistory.AcceptedBlock | src/blockchain/blockchain.py:642-719 | Each block of an accepted chain names the block below it, matches the checkpoint at its height, overwrites no unspent output unless it is the exception recorded for its own height and hash, and has distinct ids and amounts within 21 million coins |
| ChainDatabase.Database.ConnectBlock | src/database/database.py:440-466 | All four tables change together, or none does; it fails exactly on a stored body or undo row, unrecordable work or a taken UTXO key |
| ChainDatabase.Database.ApplyUtxoDelta | src/database/database.py:469-493 | Succeeds exactly when the created rows are distinct and free once the spent ones are gone |
| ChainDatabase.Database.DisconnectChainBlock | src/database/database.py:495-528 | Removes the created rows, puts back the captured ones and clears the active flag of one row |
| ChainDatabase.Database.ActivateChainBlock | src/database/database.py:530-544 | Writes the undo row, applies the delta and sets the active flag of one row |
| ChainDatabase.Database.AddBlock | src/database/database.py:383-413 | Stores body and index row together, or nothing |
| ChainDatabase.Database.AddBlockIndexEntry | src/database/database.py:687-721 | Chainwork is the parent's plus the block's own; fails exactly when work or sum cannot be stored |
| Chainwork.WorkIsShare | src/database/database.py:56-63 | For a target t that is not zero the work w satisfies w(t + 1) <= 2^256 < (w + 1)(t + 1), for zero it is zero, and it is undefined exactly when the compact target does not expand |
| Chainwork.HarderCountsMore | src/database/database.py:56-63 | A lower target never counts for less than a higher one, and one half as high counts at least twice |
| Chainwork.WorkFits | src/database/database.py:687-721 | A row can be recorded exactly when its target expands and its work with its parent's sum stays below 2^256 |
| Chainwork.ChainworkIsSum | src/database/database.py:687-721 | The chainwork of a row is the sum of the work of the headers from the root to it |
| Chainwork.TipWorkIsSum | src/blockchain/blockchain.py:298-311 | The work a candidate has to exceed is the sum over the blocks of the active chain |
| ChainDatabase.Database.MarkBlockBranchInvalid | src/database/database.py:618-637 | Exactly the block and its descendants become invalid and inactive |
| ChainDatabase.InvalidBranch | src/database/database.py:618-637 | The breadth-first walk collects exactly the block and all its indexed descendants |
| ChainDatabase.Database.GetActiveTip | src/database/database.py:781-794 | The active row of greatest height, if there is an active row |
| ChainDatabase.Database.GetBlockAtHeight | src/database/database.py:839-863 | The stored body of the active row at that height |
| ChainDatabase.Database.Restore | src/database/database.py:130-143 | Rolling back restores all four tables |
| ChainInvariant.ConnectStep | src/blockchain/blockchain.py:468-486 | Connecting a sound block keeps tree, bodies, active path, undo records and replay |
| ChainInvariant.ActivateStep | src/database/database.py:530-544 | So does activating a stored candidate on top of the path |
| ChainInvariant.DisconnectStep | src/database/database.py:495-528 | So does disconnecting the tip: the table is again the replay of the shorter path |
| ChainInvariant.InvalidateStep | src/database/database.py:618-637 | Marking the branch of an inactive block invalid keeps the invariant and leaves every active row as it was |
| ChainInvariant.StoreStep | src/database/database.py:383-413 | So does storing a block or header off the active chain |
| ChainInvariant.ActiveTipIs | src/database/database.py:781-794 | The active row of greatest height is the last block of the path |
| OrphanBlocks.OrphanBlockPool.Add | src/blockchain/orphan_pool.py:49-68 | Keeps the longest suffix of arrivals within both limits; refuses known and over-large blocks and then changes nothing |
| OrphanBlocks.OrphanBlockPool.PopChildren | src/blockchain/orphan_pool.py:70-80 | Takes out exactly the blocks that wait for the parent and leaves the others in order |
| Supply.ChainValue | src/blockchain/blockchain.py:967-1003 | No chain the node accepts ever holds more value than the sum of the caps of its blocks |
| Supply.BlockValue | src/blockchain/blockchain.py:1112-1187 | An accepted block raises the total value by at most the subsidy of its parent's height, with fees, double spends and pre-block lookups accounted for |
| Supply.SubsidyBelowMaxMoney | src/blockchain/blockchain.py:136-142 | The subsidies of any number of heights from 0 sum to less than MAX_MONEY |
| Supply.CapsWithinMaxMoney | src/blockchain/blockchain.py:553-556 | The caps as applied pay one initial subsidy more than the schedule: they stay within MAX_MONEY if and only if the chain has at most 3,937,916 blocks |
| TargetBits.CompactRoundTrip | src/data/target_bits.py:10-48 | For every 32-byte target: compacting and expanding succeeds if and only if it is at least 2^15, and then never raises it, loses less than one part in 2^15 and is stable |
| TargetBits.ExpandCompact | src/data/target_bits.py:10-48 | What comes back is the target truncated to its kept bytes, exactly when it is at least 2^15 |
| TargetBits.TruncationLoss | src/data/target_bits.py:25-48 | The bound on what truncation loses |
| TargetBits.CompactIdempotent | src/data/target_bits.py:10-48 | Compacting an expanded target gives the same bits |
| TargetBits.RetargetBounds | src/blockchain/blockchain.py:810-817 | Retargeting is monotone in the elapsed time and lies between the quarter and the fourfold of the old target, both capped by the genesis target |
| Difficulty.TargetsBelowGenesis | src/blockchain/blockchain.py:788-817 | In every accepted chain each block's target and the cached one are at most the genesis target |
| Difficulty.ExpectedTargetBound | src/blockchain/blockchain.py:788-808 | One step of that: the bits expected next expand to at most the genesis target |
| Difficulty.PeriodKeepsBits | src/blockchain/blockchain.py:788-808 | In every accepted chain a block whose height is no multiple of 2016 carries the bits of the block before it |
| Difficulty.PeriodScalesTarget | src/blockchain/blockchain.py:788-817 | At a multiple of 2016 the target is that of the block before, times the seconds from the first to the last block of the period, kept between a fourth of two weeks and four times two weeks, over two weeks, rounded down, at most the genesis target, and less what the compact form drops |
| Difficulty.RetargetIsScaled | src/blockchain/blockchain.py:810-817 | The retarget computation for any target and times is that scaling |
| Mempool.Run | src/mempool/mempool.py:229-329 | After any sequence of acceptances and confirmations, each of them a described change of the pool: index and totals are right, limits hold and no outpoint is spent twice; if every event comes in order on the pool it meets, the cached lists are exactly the transitive closure; the pool stays within 300000 virtual bytes |
| Mempool.MemPool.AcceptTx | src/mempool/mempool.py:150-267 | Decides as the checks in order say; a refusal changes nothing; an admission evicts exactly the conflicts' packages, inserts behind exactly the remaining in-pool ancestors in topological order, then trims; a replacement raises total fees by the incremental relay fee; the size limit, totals, index and package limits hold afterwards |
| AdmissionRules.AcceptedExactly | src/mempool/mempool.py:150-250 | For every pool with correct links: a transaction is accepted if and only if it is new, has inputs, is no coinbase, its inputs are outputs of pooled transactions or coins of the chain, the arbitrary checks accept those amounts, the fee is at least one satoshi and at least the rolling rate for each virtual byte, the five replacement rules hold over what really descends from a conflict, and the package limits hold over what it really depends on |
| AdmissionRules.OrphanExactly | src/mempool/mempool.py:467-482 | It is an orphan if and only if no input names a missing output of a pooled parent and some input is neither pooled nor a coin |
| AdmissionRules.FeeRefusal | src/mempool/mempool.py:208-216 | One that passes the checks before and pays less than either rate asks is refused as a matter of policy |
| AdmissionRules.FeeIsEnough | src/mempool/mempool.py:208-210 | A fee reaches the rounded up requirement exactly when it reaches rate times size |
| AdmissionRules.PackageBounds | src/mempool/mempool.py:543-590 | In a pool within its limits nothing depends on more than 24 others or has more than 24 that depend on it, nor more than 101000 virtual bytes with them, counted over what really reaches what |
| Mempool.MemPool.TrimToSize | src/mempool/mempool.py:682-706 | Ends within the size limit; every eviction was made while over it and took the package of lowest feerate with all descendants |
| Mempool.MemPool.PickWorst | src/mempool/mempool.py:686-698 | The entry whose package has the lowest feerate, smaller id first |
| Mempool.MemPool.GetBlockTemplate | src/mempool/mempool.py:291-329 | Terminates; the list is duplicate-free, each transaction after all its in-pool ancestors, within the weight limit; each pick was the best that fitted; at the end no other entry fits with its unselected ancestors |
| Mempool.MemPool.PickBest | src/mempool/mempool.py:300-319 | The fitting package of highest feerate, larger id first, or none when none fits |
| Mempool.MemPool.BundleOf | src/mempool/mempool.py:304-309 | An entry with exactly its unselected ancestors, in topological order |
| Mempool.MemPool.ConfirmBlock | src/mempool/mempool.py:269-276 | Removes exactly the confirmed entries; with parents first the lists stay the exact closure |
| Mempool.MemPool.RemoveTx | src/mempool/mempool.py:493-508 | Striking one entry from its neighbours' lists leaves no mention of it anywhere, and index, totals and limits right |
| Mempool.MemPool.RemoveEntries | src/mempool/mempool.py:657-666 | Removing a set one by one, deepest first, is removing it at once |
| Mempool.MemPool.InsertEntry | src/mempool/mempool.py:236-250 | Every listed ancestor records the newcomer; index, totals and limits stay right |
| Mempool.MemPool.GetAncestors | src/mempool/mempool.py:510-529 | Exactly the ancestors the newcomer will have once the excluded entries are gone, without repetition, parents first |
| Mempool.MemPool.CheckPackageLimits | src/mempool/mempool.py:543-589 | True exactly when counts and sizes fit in both directions without the ignored entries |
| Mempool.MemPool.GetDirectConflicts | src/mempool/mempool.py:591-599 | The index lookup finds exactly the entries that spend an input of the newcomer |
| Mempool.MemPool.CheckReplacement | src/mempool/mempool.py:601-647 | Passes exactly when the five replacement rules hold, and then returns the conflicts with all their descendants |
| Mempool.MemPool.GetUtxos | src/mempool/mempool.py:449-482 | Tells malformed references to pooled parents from unknown inputs, and otherwise returns the amounts in order |
| Mempool.MemPool.AddMetadata | src/mempool/mempool.py:741-751 | The index and the spent set grow by exactly the inputs, the total by the virtual size |
| Mempool.MemPool.RemoveMetadata | src/mempool/mempool.py:753-763 | They shrink by exactly the same |
| MempoolGraph.CacheIsClosure | src/mempool/mempool.py:229-252 | Cached ancestors are exactly what is reached through in-pool inputs, and descendants exactly the converse |
| MempoolGraph.ParentHasFewer | src/mempool/mempool.py:531-541 | A parent has strictly fewer ancestors than its child |
| MempoolGraph.AncestorsTransitive | src/mempool/mempool.py:510-529 | Ancestors of ancestors are ancestors, of strictly smaller depth |
| MempoolGraph.InsertKeepsClosure | src/mempool/mempool.py:229-250 | Inserting keeps the closure if and only if nothing pooled already spends an output of the newcomer |
| MempoolGraph.ChildFirstExample | src/mempool/mempool.py:229-250 | A pooled transaction that already spends the newcomer reaches it without listing it |
| MempoolGraph.RemoveDescendantClosed | src/mempool/mempool.py:657-666 | Removing a set with all descendants keeps the closure |
| MempoolGraph.RemoveAncestorClosed | src/mempool/mempool.py:269-276 | Removing a set with all ancestors keeps the closure |
| MempoolGraph.RemoveOneKeepsClosure | src/mempool/mempool.py:493-508 | Removing one entry keeps the closure if and only if each of its children has each of its ancestors through another parent too, on the pool before; equivalently, if they stay connected after |
| MempoolGraph.MiddleRemovedExample | src/mempool/mempool.py:493-508 | In a chain of three, removing the middle leaves the first listed as an ancestor of the third, which no longer reaches it |
| MempoolIndex.NoDoubleSpend | src/mempool/mempool.py:716-763 | With a correct spend index no two entries spend one outpoint |
| MempoolIndex.LimitsInsert | src/mempool/mempool.py:543-589 | A package that passes the check keeps every entry of the pool within all four limits |
| MempoolIndex.LimitsRemove | src/mempool/mempool.py:493-508 | Removals never break a limit |
| MempoolIndex.IndexInsert | src/mempool/mempool.py:741-751 | The index stays exact when the inputs are free |
| MempoolIndex.IndexRemove | src/mempool/mempool.py:753-763 | The index stays exact when an entry and its inputs go |
| MempoolOrder.TotalsRemoveAll | src/mempool/mempool.py:753-763 | Removing a set takes exactly its sizes and fees off the totals |
| MempoolOrder.AncestorsComeFirst | src/mempool/mempool.py:531-541 | Sorting by ancestor count, arrival and id puts every ancestor first |
| MempoolOrder.TopologicalUnique | src/mempool/mempool.py:531-541 | A set of entries has one such order |
| MempoolOrder.TopologicalOrder | src/mempool/mempool.py:531-541 | A permutation of the entries, sorted by that key |
| MempoolOrder.ListedByKey | src/mempool/mempool.py:532-541 | Fewer ancestors come first, then the earlier arrival, then the smaller id |
| MempoolPolicy.ReplacementRaisesFees | src/mempool/mempool.py:636-646 | A permitted replacement raises total fees by at least the incremental relay fee, before trimming (BIP-125, section Implementation Details) |
| MempoolPolicy.AdmittedKeepsGraph | src/mempool/mempool.py:229-250 | Eviction and insertion together keep the closure if and only if no entry left spends an output of the newcomer |
| MempoolPolicy.EvictedIsClosed | src/mempool/mempool.py:611-614 | Conflicts with their cached descendants are closed under descendants |
| MempoolPolicy.AdmittedResolvable | src/mempool/mempool.py:626-634 | Every input of every entry still resolves after an admission if and only if the newcomer spends no output of an entry it evicts |
| MempoolPolicy.EvictedInputExample | src/mempool/mempool.py:626-634 | A pool, coins and a replacement that admission accepts, after which an input of the newcomer does not resolve |
| MempoolPackages.TrimKeepsGraph | src/mempool/mempool.py:682-706 | Any sequence of package evictions keeps the closure |
| MempoolPackages.AppendBundle | src/mempool/mempool.py:319-327 | Appending a missing package in topological order keeps the template duplicate-free with ancestors first |
| ScriptSemantics.CutIsFlat | src/script/script_engine.py:127-212 | For all scripts, machines and opcode steps: cutting the selected branch and recursing succeeds exactly when running straight through with a condition stack does, with the same stacks, if a second OP_ELSE is ignored |
| ScriptSemantics.CutIsUsual | src/script/script_engine.py:763-880 | With at most one OP_ELSE per conditional it is the usual interpreter |
| ScriptMeaning.CodeMeans | src/script/script_engine.py:763-880 | For every program of pushes of any encoding, opcodes and nested conditionals, every machine and every arbitrary opcode step: running its bytes does what the program means, where a conditional pops an item of at most four bytes and runs its first branch when the item read as a number is not zero, for OP_NOTIF when it is, and otherwise its second branch, if any |
| ScriptMeaning.NotIfMirrorsIf | src/script/script_engine.py:139-152 | Whatever bytes follow, OP_NOTIF on an item does what OP_IF does on the opposite one |
| ScriptMeaning.ProgramSucceeds | src/script/script_engine.py:934-983 | Validating the script of a program on empty stacks succeeds if and only if the program ends and leaves, alone if the stack must be clean, an item of at most four bytes that is not zero; it raises exactly when the program does or the item is longer |
| ScriptSemantics.SecondElseDiffers | src/script/script_engine.py:182-188 | With two it is not: a script on which both succeed with different stacks |
| ScriptSemantics.RunBranch | src/script/script_engine.py:868-875 | Running the selected branch alone and then the rest agrees with running on inside the whole script, at any nesting depth |
| ScriptSemantics.UnclosedFails | src/script/script_engine.py:171-172 | A conditional without OP_ENDIF never succeeds in either reading |
| ScriptSemantics.ReadAgain | src/script/script_engine.py:89-125 | An instruction copied into a branch reads back as itself whatever follows |
| ScriptTrace.TracingIsTransparent | src/script/script_engine.py:882-925 | Tracing changes neither result nor machine |
| ScriptTrace.TracesPassTheirChecks | src/script/trace.py:346-375 | Every trace, however the run ends, passes every check of the trace and step constructors |
| ScriptMeaning.TraceShowsStacks | src/script/script_engine.py:719-744 | A trace shows both stacks as they were before the first step and as they are after the last |
| ScriptTrace.TracesPointIntoScript | src/script/script_engine.py:719-744 | With at most one OP_ELSE per conditional each step's bytes stand at its offset in the script, at any nesting depth |
| ScriptTrace.SecondElseMisplaces | src/script/script_engine.py:182-188 | With two they need not |
| ScriptTrace.BranchesInPlace | src/script/script_engine.py:154-212 | Both branches of such a conditional are contiguous pieces of the script and have at most one OP_ELSE per conditional themselves |
| ScriptEngine.Engine.Run | src/script/script_engine.py:763-880 | The loop leaves exactly the machine, status, steps and diagnostic of the specification, traced or not; the recursion terminates because a branch is shorter than its script |
| ScriptEngine.Engine.RunConditional | src/script/script_engine.py:868-875 | One conditional with the recursive run of its branch: the machine, steps and position from which the rest goes on, or the failure |
| ScriptEngine.Engine.ExecuteScript | src/script/script_engine.py:882-925 | Result and machine are those of the cutting interpreter with or without a trace; a trace that is kept passes its checks |
| ScriptEngine.Engine.ValidateScript | src/script/script_engine.py:934-968 | Runs on empty stacks and judges the final one; the amended trace still passes its checks and agrees with the verdict |
| ScriptEngine.Engine.ValidateStack | src/script/script_engine.py:970-983 | Fails on an empty, unclean or false stack and raises on an over-long item |
| ScriptEngine.Engine.SelectConditionalBranch | src/script/script_engine.py:127-152 | Pops the condition, picks the branch OP_IF or OP_NOTIF asks for and leaves the stream after OP_ENDIF |
| ScriptEngine.Engine.ExecuteOpcode | src/script/script_engine.py:799-866 | One other instruction with its trace step |
| ScriptEngine.Engine.ExecuteIf | src/script/script_engine.py:809-866 | One conditional up to the choice of its branch, with its trace step |
| ScriptEngine.Engine.AppendTraceStep | src/script/script_engine.py:719-744 | The next step, numbered by the length of the log, with the stacks as they are |
| ScriptEngine.ParseConditionalBlock | src/script/script_engine.py:154-212 | The copying loop returns the two branches, their stream positions and the rest, or finds the block unclosed |
| ScriptEngine.ReadInstruction | src/script/script_engine.py:89-125 | Reads one instruction and moves the stream past exactly its bytes; cut-off data is an error |
| ScriptEngine.IsZeroIsNumber | src/script/stack.py:64-86 | An item is false exactly when it reads as the script number zero, of either sign |
| SquareRoots.TonelliShanks | src/cryptography/ecc_math.py:20-75 | For every integer and odd prime: terminates, returns a square root if there is one and an error if there is none, with no assumption on number theory |
| SquareRoots.GeneralRoot | src/cryptography/ecc_math.py:39-75 | The general case: its loop ends, m falling strictly, with a root |
| SquareRoots.LoopStep | src/cryptography/ecc_math.py:58-73 | One round keeps c at minus one, t at one and r squared at t times n |
| SquareRoots.OrderOf | src/cryptography/ecc_math.py:60-65 | The inner loop finds the least number of squarings that gives one, below m |
| SquareRoots.SplitOff | src/cryptography/ecc_math.py:41-45 | p - 1 is an odd number times a positive power of two |
| SquareRoots.NonResidueExists | src/cryptography/ecc_math.py:47-50 | The search for z ends: some number below p has the power minus one |
| SquareRoots.ThreeModFour | src/cryptography/ecc_math.py:35-37 | The shortcut returns a root |
| SquareRoots.IsQuadraticResidue | src/cryptography/ecc_math.py:8-17 | True exactly for zero and the squares modulo an odd prime |
| SquareRoots.Criterion | src/cryptography/ecc_math.py:8-17 | Euler's criterion, both directions |
| ModularArithmetic.Fermat | src/cryptography/ecc_math.py:16-32 | Fermat's theorem, by permuting the units |
| ModularArithmetic.RootBound | src/cryptography/ecc_math.py:47-50 | A monic polynomial has at most as many roots modulo a prime as its degree |
| PubKeys.FromCompressed | src/data/ecc_keys.py:53-74 | Succeeds on exactly the compressed forms of points and returns the point; p itself stands for y in the odd form of a zero y |
| PubKeys.CompressedInjective | src/data/ecc_keys.py:128-133 | No two points share a compressed form |
| PubKeys.RoundTrip | src/data/ecc_keys.py:53-74 | Decoding the compressed form of a point with 0 < x < p returns the point |
| PubKeys.FindYFromX | src/cryptography/ecc.py:130-142 | The smaller root of the curve equation exactly when x is on the curve |
| PubKeys.XTermsIsCubic | src/cryptography/ecc.py:104-112 | Both branches of the code compute the cubic |
| Bech32.ChecksumVerifies | src/cryptography/bech32.py:56-71 | Six symbols verify as an encoding if and only if they are the checksum created for it |
| Bech32.CreatedVerifies | src/cryptography/bech32.py:56-71 | What is created verifies as the same encoding |
| Bech32.SubstitutionDetected | src/cryptography/bech32.py:56-63 | Changing any one data symbol of a valid string within 90 characters is always detected, whichever encoding one looks for; at any length the same encoding is missed |
| Bech32.NeverSwaps | src/cryptography/bech32.py:56-63 | No one-symbol difference followed by fewer than 90 symbols turns one encoding's constant into the other's |
| Bech32Text.PrefixLowBitsDetected | src/cryptography/bech32.py:51-63 | Changing the low five bits of one character of the prefix is always detected, within 90 characters whichever encoding one looks for |
| Bech32Text.PrefixHighBitsDetected | src/cryptography/bech32.py:51-63 | So is changing the bits above them |
| Bech32.DecodeEncode | src/cryptography/bech32.py:74-96 | Decoding an encoded string returns prefix, data and encoding, for every printable prefix without capitals and five-bit data within 90 characters (BIP-173, section Bech32; BIP-350, section Bech32m) |
| Bech32.DecodesExactly | src/cryptography/bech32.py:80-96 | A string decodes to something if and only if it is printable, of one case and in lower case is the encoding of it |
| Bech32Text.DecodesText | src/cryptography/bech32.py:80-96 | By code points: what decodes are exactly the strings of at most 90 characters 33 to 126, not with letters of both cases, whose small form is the encoding of a prefix and five-bit values |
| Bech32Text.AlphabetEncodes | src/cryptography/bech32.py:35 | The string of BIP-173, section Test vectors, that holds the whole alphabet in order encodes and decodes as printed |
| Bech32Text.ShortDecodes | src/cryptography/bech32.py:80-96 | "A12UEL5L" of BIP-173, section Test vectors, decodes to the prefix "a", no data and Bech32 |
| Bech32Text.ShortMDecodes | src/cryptography/bech32.py:80-96 | "A1LQFN3A" of BIP-350, section Test vectors for Bech32m, decodes to the prefix "a", no data and Bech32m |
| Bech32.Polymod | src/cryptography/bech32.py:39-48 | The loop over symbols and generators computes the linear register |
| Bech32.StepLinear | src/cryptography/bech32.py:43-47 | A step of the register is linear over exclusive or |
| Bech32.CharOfValue | src/cryptography/bech32.py:35 | The 32 characters are distinct, printable, without capitals and without the separator |
| ConvertBits.Convert | src/cryptography/bech32.py:99-119 | For any two widths: the output spells the same bits, padded with fewer zeros than one value, or unpadded up to a zero remainder shorter than either width; it fails exactly when a value is too large or the remainder is not such |
| ConvertBits.RegroupBack | src/cryptography/bech32.py:99-119 | For from >= to, the padded output regroups back to the data and to nothing else |
| ConvertBits.RoundTrip | src/cryptography/bech32.py:99-119 | Converting to narrower values with padding and back without is the identity, in particular 8 to 5 to 8 |
| Merkle.Build | src/data/merkle_trees.py:19-51 | Fails only for an empty list; otherwise every level is the padded list of hashes of the pairs below and the last is one root |
| Merkle.LevelSizes | src/data/merkle_trees.py:27-51 | All levels but the root's have at least two nodes, and the root's exactly one |
| Merkle.CeilLog2IsLeast | src/data/merkle_trees.py:23 | The height is the least h with 2^h >= n |
| Merkle.GetProof | src/data/merkle_trees.py:53-75 | A proof exists exactly for members; it has one sibling per level and leads to the root |
| Merkle.VerifyProof | src/data/merkle_trees.py:77-90 | The loop accepts exactly proofs that lead to the root |
| Merkle.ProofsAreSound | src/data/merkle_trees.py:77-90 | A proof of the tree's height that leads a 32-byte id to the root proves membership, or one of the strings hashed while verifying is different from, and collides with, a pair that was hashed to build the level it is on |
| BlockStore.Run | src/database/block_store.py:80-111 | After any run of commits, rollbacks and crashes with any part of an append written: every committed block reads back exactly and in order, committed ranges do not overlap, nothing else is on disk, no file is larger than 128 MiB unless it holds one larger block, and a file is begun only for a block that did not fit into the one before |
| BlockStore.ReconcileKeeps | src/database/block_store.py:104-111 | Reconciling keeps what stands at every committed location, on any disk |
| BlockStore.ReconcileCutsOnlyUncommitted | src/database/block_files.py:112-130 | A byte that is cut is covered by no committed location, on any disk |
| BlockStore.ReconcileRestores | src/database/database.py:115-128 | After a crash reconciling gives back the disk as it was before the append |
| BlockStore.RollbackRestores | src/database/block_files.py:99-110 | So does rolling the append back |
| BlockStore.CommitKeeps | src/database/block_files.py:47-71 | A committed append keeps every earlier block and does not overlap it |
| BlockStore.ArchivalBlockStore.Reconcile | src/database/block_store.py:104-111 | Passes on the largest committed end of each file |
| BlockStore.ArchivalBlockStore.ReadBlock | src/database/block_store.py:83-90 | Returns what stands at the location, nothing without one |
| BlockFiles.BlockFileManager.WriteBlock | src/database/block_files.py:47-71 | Appends to the current file, or to a new one when the block would not fit, and returns where |
| BlockFiles.BlockFileManager.ReadBlock | src/database/block_files.py:73-97 | Returns the bytes at a location, or an error when the file is missing or too short |
| BlockFiles.BlockFileManager.RollbackBlock | src/database/block_files.py:99-110 | Succeeds exactly on the last block of a file; truncates it, or removes the file when it was the only one |
| BlockFiles.BlockFileManager.Reconcile | src/database/block_files.py:112-130 | Cuts every file at its end, removes files without one, and reports whether anything changed |
| BlockFiles.BlockFileManager.FindEnd | src/database/block_files.py:21-41 | The number and size of the latest file |
| TxCodec.ParsePrint | src/tx/tx.py:486-555 | Parsing a printed transaction followed by anything returns it and the rest, for every in-range transaction with an input and no or one witness per input (BIP-144, section Serialization) |
| TxCodec.ParsedIsPrintable | src/tx/tx.py:486-555 | Whatever parses is in range, and with an input parses back from its own bytes |
| TxCodec.Weight | src/tx/tx.py:455-479 | Weight is three times the stripped size plus the total size (BIP-141, section Transaction size calculations) |
| TxCodec.InBack | src/tx/tx.py:48-72 | Parsing undoes printing for inputs |
| TxCodec.OutBack | src/tx/tx.py:125-139 | for outputs |
| TxCodec.WitnessBack | src/tx/tx.py:174-191 | for witnesses |
| TxCodec.CompactBack | src/core/byte_stream.py:20-35 | for compact sizes up to 2^64 - 1 |
| TxCodec.DataBack | src/core/byte_stream.py:38-52 | for length-prefixed data |
| TxStream.ReadTx | src/tx/tx.py:486-525 | Reading field by field off a stream, with the step back over a missing marker, is parsing; the stream ends after the transaction |
| TxStream.ReadIn | src/tx/tx.py:48-58 | The same for an input |
| TxStream.ReadOut | src/tx/tx.py:125-132 | The same for an output |
| TxStream.ReadWitness | src/tx/tx.py:174-183 | The same for a witness |
| TxStream.ReadCompactSize | src/core/byte_stream.py:105-124 | The same for a compact size |
| TxStream.DeserializeData | src/core/byte_stream.py:46-52 | The same for length-prefixed data |
| ByteStream.Stream.ReadExact | src/core/byte_stream.py:75-86 | Exactly the asked bytes, or an error |
| TxInspector.Inspector.Inspect | src/tx/inspection.py:30-140 | The fields, joined, are the serialisation, each is named after the part of the transaction it holds, and the final length check never fails |
| TxInspector.FieldInPlace | src/tx/inspection.py:152-164 | Each field's bytes stand at its offset in the joined bytes |
| TxInspector.Inspector.Add | src/tx/inspection.py:152-164 | A new field starts where the last one ended |

## Left out

- Blockchain.Blockchain.AddHeader: one header at a time instead of a contiguous batch; proof of work, time and the conflict check are its flag `headerOk`, because a batch stops at the first bad header.
- OrphanBlocks.OrphanBlockPool.PopChildren: children are found by scanning the entries, so the child index and the order in which a hash set lists them are not modelled.
- BlockRules.CheckInputs: the relative locktime test of the same loop is part of the arbitrary transaction policy.
- BestChain.BestChain: once a block has passed a check, its later checks must depend on the chain below it alone, not on rows off the branch; a clock that runs backwards is not covered.
- Blockchain.Run: starts from an empty database, because opening a database with a tip caches the genesis target whatever that tip is.
- Mempool.MemPool.AcceptTx: expiry, decoding of raw bytes, the orphan transaction pool and the decaying rolling fee are not modelled; the rolling floor is an argument, and feerates are exact rationals instead of floats.
- MempoolGraph.RemoveOneKeepsClosure: entries are values keyed by txid; the identity of Python entry objects, and lists shared between them, are not modelled.
- MempoolPolicy.AdmittedResolvable: assumes that the chain's coins and the pooled outputs are disjoint and that nothing pooled spends an output of the newcomer.
- Bech32.SubstitutionDetected: errors in more than one symbol are not covered.
- Bech32.DecodeEncode: text is a sequence of code points in 32-bit words; case folding outside ASCII does not arise because such characters are refused first.
- Merkle.Build: the list given by the caller gets the odd duplicate appended in Python; here it is a value and stays as it was. The height is exact where Python goes through a float logarithm. The branch for a missing sibling is unreachable on padded levels and left out.
- PubKeys.FromCompressed: the curve is any cubic over an odd prime field of at most 256 bits; uncompressed and x-only keys are left out.
- SquareRoots.TonelliShanks: p = 2 and composite p are outside the contract; the code documents primes.
- ScriptEngine.Engine.Run: the operation log and explanations are not modelled; signature opcodes, locktimes and stack opcodes are the arbitrary step.
- BlockStore.Run: a block is not empty, as no serialised block is; remote and pruned storage are left out.
- TxInspector.Inspector.Inspect: labels are a datatype, and the decoded text of a field is left out.
- ChainDatabase.Database.MarkBlockBranchInvalid: marks the branch itself; the SQL recursion is the loop that collects it.
- Elliptic-curve addition, ECDSA, Schnorr, DER and signature hashes: their laws would have to be assumed.
- HTTP, sockets, RPC, command line, wallet, logging, threads and SQLite itself.

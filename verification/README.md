# A verified model of the Prism node

Prism is a proof-of-work consensus protocol with one proposer tree and many voter trees. Voter blocks vote for
proposer blocks; when enough votes are deep enough, one proposer block per level becomes the leader of its
level, and the sequence of leaders orders all proposer blocks and the transactions they refer to. This project
models the node's path from an arriving block to the coin set, in Dafny, and proves what that path is for.

| component | files | main results |
|---|---|---|
| ledger order | `Linearization` | the walk with duplicates, the reversal and the filter are a memoised post-order; the ledger is topological |
| votes | `VoterTrees`, `VoteIndex` | `vote_diff` stops at the lowest common ancestor; the merged index is exactly the main-chain votes |
| election | `Election`, `Leader`, `VoteDepths` | a leader is returned exactly when it wins every completion of the votes; the numbers that enter are counts of blocks in the voter trees |
| block chain store | `ChainInvariants`, `LedgerUpdate`, `Store`, `Links`, `Blockchain`, `ChainTheorems` | the incremental ledger equals the ledger from scratch, after any history |
| validation and voting | `Voting` | the miner's votes are the ones validation accepts |
| the node | `Events`, `Node` | the store is exactly the record of what validation accepted, over any run; two nodes agree on the ledger as far as they agree on leaders; the coins end as the replay of the node's own ledger |
| coins | `Utxo`, `Rollback`, `Ownership` | coins leave only with their owners' signatures; the exact conditions for rollback to restore the coins and for value not to grow |
| parallel execution | `Jobs`, `Dispatcher`, `Serializability`, `Liveness`, `LedgerManager`, `Snapshots` | every interleaving is serializable, comes to rest, and leaves the replay of the current ledger; every state on the way is the replay of some list |
| Merkle tree | `Merkle`, `MerkleTree` | in-place update equals a rebuild; proofs are complete, shortest and unique |
| block admission | `BlockBuffer`, `Admission`, `Wakeups`, `AdmissionTheorems`, `AdmissionLiveness`, `Dedup`, `Intake` | the exact condition for a wake-up to be lost, causal admission, each block accepted once, runs come to rest |
| memory pool | `MemoryPool` | three indexes, one list; transitive removal is the least set of spenders |
| sortition | `Sortition` | what the miner produces passes the validator |

## How it is modelled

- Code that edits fields is a class with methods over those fields: `BlockChain`, `FullNode`, `UtxoDatabase`,
  `MerkleTree` (over an array), `BlockBuffer`, `MemoryPool`. Each method's postcondition gives the new state
  as a function of the old one, and `Valid()` is kept by every method, so it holds after any sequence of calls.
- Loops over local variables are methods with loops, each proved against a specification function.
- The two multi-threaded protocols are state machines over single steps: a worker reads one coin or one
  reference at a time, and every other thread may move between two reads. Statements about them are about the
  state after any sequence of enabled steps. Fields marked as history in `Dispatcher.System` and
  `Admission.Node` are only written, never read by a step.
- A column family is a map, a merge operator a left-to-right fold of operands into the stored value, a write
  batch an atomic change. An `H256` is the number its bytes spell in big-endian order;
  `Sortition.CompareIsBigEndianOrder` and `Sortition.FromBeInjective` justify that.
- Hash functions are parameters. The confidence bound of the election (Poisson distributions in 32-bit floating
  point) is a parameter too, required only never to exceed the number of votes it is about.
- Errors of the source that stop a thread (`unwrap`, `expect`, `panic!`, a failed 256-bit operation) are either
  proved unreachable or modelled as an outcome.

## Where a promise needs a condition

- Rollback (`Rollback.UndoIsExact`): taking back a transaction restores the coins exactly when, if it was
  accepted, its inputs state the coins they spend and no other coin had an id of its outputs; and if it was
  rejected, an output is missing or the undo changes nothing. For lists, distinct transaction hashes, fresh
  ids, outputs and truthful owners are sufficient (`Rollback.RollbackIsExact`).
  `Rollback.RepeatedTransactionIsLost` gives a validated payment that is lost when it is in the ledger twice.
- Total value (`Rollback.TotalAfterApply`): it does not grow exactly when the outputs are covered by the
  distinct coins spent. The three content checks do not ensure that: `Rollback.ListingACoinTwiceMints` gives a
  transaction that passes them, is accepted, and mints the value of a coin it lists twice.
- Wake-ups (`AdmissionTheorems.BufferedTooLate`): `check_data_availability` looks each reference up as one kind
  of block. A block that names a block of the chain as a kind it is not finds it missing, and is buffered on a
  dependency that will never wake it - one whose dependents have been woken, a genesis block or a mined one.
  That happens exactly for such references, and the block then stays in the buffer for ever
  (`AdmissionTheorems.StrandedForever`); `AdmissionTheorems.GenesisStrands` gives a run from the start. Every
  other block waits only for blocks whose wake-up is still to come. The comment in `src/network/buffer.rs:28-33` says that holding the lock during the
  check removes the race; it does, except for these blocks.
- Transaction references (`Nodes.FullNode.EndUpdate`): `contains_transaction` finds every block that has a
  parent, so a proposer block may list a voter block as a transaction block and pass every check
  (`Nodes.WrongReferencePasses`). The ledger thread stops exactly when a newly confirmed proposer block refers
  to something that is no transaction block (`LedgerManager.UpdateTransactionSequence` for the whole diff).
- Sortition (`Sortition.BelowDifficulty`): the ends of the bands count the proposer width twice, so their sum
  can exceed 256 bits; a header hash below the difficulty then fails exactly when it lies beyond the proposer
  band. With the default difficulty that happens exactly when the proposer width exceeds the voters' total
  (`Sortition.DefaultDifficultyOverflows`). `Sortition.OnlyBelowDifficulty` gives the exact condition under
  which no hash at or above the difficulty is let through, `Sortition.DifficultyItselfPasses` one that is.
- Sortition ids (`Sortition.PowVerdict`): a block passes `check_pow_sortition_id` exactly when its hash selects the
  kind and chain of its content, or when the 16-bit id of its chain number wraps: a voter content with chain
  number 65534 passes where a proposer content would (`Sortition.WrappedChainPasses`), one with 65535 where a
  transaction content would. For chain numbers in range the header decides (`Sortition.HeaderDecides`).
- Quorum (`Leader.QuorumWraps`): the product is computed in 16 bits, so it is three fifths of the chains exactly
  up to 21845 chains; with 21846 it is zero.
- The memory pool holds up to one transaction more than its limit, since `insert` refuses only when the limit
  is already exceeded (`MemoryPools.MemoryPool.Insert`).

## Model

| member | source | states |
|---|---|---|
| `Linearization.CollectOrder` | src/blockchain/mod.rs:609-627 | the stack walk that marks nothing ends, because every pop lowers the total path weight of the stack, and collects the specified list with repetitions |
| `Linearization.RemoveConfirmed` | src/blockchain/mod.rs:629-635 | the filter keeps the first copy of every unconfirmed block and removes exactly those from the set |
| `Linearization.OrderLevel` | src/blockchain/mod.rs:609-637 | walk, reversal and filter together give the memoised depth-first post-order from the leader over what is unconfirmed |
| `Linearization.FilteredWalkIsVisit` | src/blockchain/mod.rs:609-637 | keep-first of the reversed duplicate-producing walk equals the post-order with a visited set, for any set confirmed meanwhile |
| `Linearization.WalkStep` | src/blockchain/mod.rs:612-627 | one iteration keeps the list still to be produced and strictly lowers the path weight |
| `Linearization.VisitAdds` | src/blockchain/mod.rs:587-639 | one level adds distinct new blocks, none above the leader, each after all it refers to, the leader last |
| `Linearization.LedgerIsTopological` | src/blockchain/mod.rs:587-639 | for any leader sequence: no block twice, references first, each level's list non-empty and ending with its leader |
| `Linearization.LedgerPrefix` | src/blockchain/mod.rs:587-639 | the ledger of a prefix of the leaders is a prefix of the ledger |
| `Linearization.LedgerFrame` | src/blockchain/mod.rs:562-641 | two DAGs that agree on common blocks give the same ledger for the same leaders |
| `Linearization.SiblingsInOrder` | src/blockchain/mod.rs:609-637 | unconfirmed siblings are confirmed in the order in which the leader refers to them |
| `VoterTrees.MainVotesOnePerLevel` | src/validation/voter_block.rs:40-59 | every voter block's main chain holds exactly one vote on each proposer level up to its voted level |
| `VoterTrees.SegmentSplits` | src/blockchain/mod.rs:820-884 | the votes of a block are those of an ancestor plus exactly the collected segment above it |
| `VoterTrees.SegmentSpread` | src/blockchain/mod.rs:820-884 | a segment votes for distinct blocks on levels strictly above what the ancestor voted |
| `VoterTrees.VoteDiff` | src/blockchain/mod.rs:820-884 | the climb never passes genesis, stops at the lowest common ancestor, and returns exactly the votes above it on each side |
| `VoteIndex.VoteVecMerge` | src/blockchain/mod.rs:1592-1620 | the merge operator is the left-to-right fold of add and remove operands over the stored votes |
| `VoteIndex.QueueRemovals` | src/blockchain/mod.rs:456-470 | merging the removals takes exactly those votes of that chain out of the index |
| `VoteIndex.QueueAdditions` | src/blockchain/mod.rs:471-484 | merging the additions puts exactly those votes of that chain into the index |
| `VoteIndex.VoteDiffMovesIndex` | src/blockchain/mod.rs:445-488 | removals then additions turn the index at the old tip into the index at the new tip, also when both forks vote for the same block |
| `VoteIndex.TotalIsVoters` | src/blockchain/mod.rs:705-712 | the votes stored on a set of blocks number the chains that vote for one of them |
| `VoteIndex.LevelVotesBounded` | src/blockchain/mod.rs:705-712 | the votes of a level number the chains that have voted it, so never more than there are chains |
| `Election.Candidate` | src/blockchain/mod.rs:725-770 | the first pass finds the largest bound with the lowest hash on ties, and the sum of the bounds |
| `Election.Elect` | src/blockchain/mod.rs:725-799 | a block is returned if and only if it wins every completion of the votes, an unseen block included |
| `Election.RobustIsUncatchable` | src/blockchain/mod.rs:771-799 | winning every completion is the same as leading by more than the open votes, ties by hash |
| `Election.RobustGrows` | src/blockchain/mod.rs:532-539 | a winner stays one under higher bounds |
| `Election.OrderIrrelevant` | src/blockchain/mod.rs:725-799 | the result does not depend on the order in which the level's blocks are listed |
| `Leader.NumVoterBlocks` | src/blockchain/mod.rs:801-818 | sums the block counts of a chain over a range of levels, both ends included |
| `Leader.GatherBlock` | src/blockchain/mod.rs:659-700 | each depth is the best level minus the vote's level plus one, and the mined total counts every level since; no lookup or subtraction fails |
| `Leader.Gather` | src/blockchain/mod.rs:659-712 | depths of every block of the level, the mined total and the number of votes |
| `Leader.ProposerLeader` | src/blockchain/mod.rs:659-799 | the leader is the block that wins every completion of the bounds once a quorum has voted, and none otherwise |
| `Leader.QuorumWraps` | src/blockchain/mod.rs:715-715 | the 16-bit quorum is three fifths of the chains if and only if there are at most 21845, and 0 for 21846 |
| `VoteDepths.BuryingCount` | src/blockchain/mod.rs:690-700 | the main chain of a block has exactly one block per level from any level up |
| `VoteDepths.MinedCount` | src/blockchain/mod.rs:801-818 | the counters summed over levels number the chain's blocks on them, forks included |
| `VoteDepths.CountedInTheTree` | src/blockchain/mod.rs:690-700 | the depth of a stored vote is the number of main-chain blocks from the vote up, and the mined number that of all blocks of the chain since |
| `VoteDepths.ElectedByTheTrees` | src/blockchain/mod.rs:659-799 | a level's leader is the block that wins every completion of the bounds on those numbers, once more than a quorum of chains has voted |
| `LedgerUpdate.QueueVotes` | src/blockchain/mod.rs:456-484 | one operand per vote, and an affected range that covers every touched level, is no wider than them, and stays within levels 1 to the best |
| `LedgerUpdate.MoveChain` | src/blockchain/mod.rs:445-488 | one chain's diff makes the pending index that of its new tip, and queues operands for exactly the blocks voted in the diff |
| `LedgerUpdate.MoveVotes` | src/blockchain/mod.rs:431-488 | all chains move to their best blocks, the index is that of the new tips, unaffected levels keep their votes, and the range runs from the lowest to the highest level any diff votes on |
| `LedgerUpdate.ReelectLevel` | src/blockchain/mod.rs:524-557 | one level gets the leader its votes elect, by the stricter quantile when it had none |
| `LedgerUpdate.FreshLeaderStays` | src/blockchain/mod.rs:527-539 | a level whose leader would be elected afresh keeps or gets it, whatever it had before |
| `LedgerUpdate.RecomputeLeaders` | src/blockchain/mod.rs:510-560 | exactly the affected levels are re-elected, and the first changed level is found, never level 0 |
| `LedgerUpdate.Deconfirm` | src/blockchain/mod.rs:587-596 | the levels from the change on leave the ledger, and their blocks become unconfirmed |
| `LedgerUpdate.Rebuild` | src/blockchain/mod.rs:598-641 | level by level up to the first one without a leader, the stored ledger becomes that of the current leaders |
| `LedgerUpdate.RebuildLedger` | src/blockchain/mod.rs:562-641 | cut and rebuild give the from-scratch ledger, and the returned blocks are the difference of the old and the new one |
| `ChainInvariants.ScratchIsTopological` | src/blockchain/mod.rs:587-639 | the ledger of a run of leaders repeats nothing, keeps references first and is closed under references |
| `ChainInvariants.RunStep` | src/blockchain/mod.rs:609-637 | ordering one more level extends the from-scratch ledger by that level |
| `ChainInvariants.RunCut` | src/blockchain/mod.rs:587-596 | deconfirming from a level leaves the ledger of the leaders below it |
| `ChainInvariants.LedgerKeepsOnProposer` | src/blockchain/mod.rs:275-311 | a new proposer block changes nothing confirmed and joins the unconfirmed ones |
| `ChainInvariants.TransactionsOne` | src/blockchain/mod.rs:645-652 | the transaction blocks of one proposer block are its references in their order |
| `Store.GenesisKeeps` | src/blockchain/mod.rs:114-225 | the initial store satisfies the invariant |
| `Store.ProposerKeeps` | src/blockchain/mod.rs:275-345 | inserting a validated proposer block keeps the invariant and both ledgers |
| `Store.VoterKeeps` | src/blockchain/mod.rs:347-398 | inserting a validated voter block keeps the invariant and both ledgers |
| `Store.VotesReachable` | src/blockchain/mod.rs:659-700 | every stored vote lies on a counted level at or below its chain's best block |
| `Store.LevelVotes` | src/blockchain/mod.rs:705-712 | the votes of a level number the chains whose ledger tip voted it; the "more votes than chains" panic cannot happen |
| `Blockchain.BlockChain.constructor` | src/blockchain/mod.rs:114-225 | a new store is the genesis state and valid |
| `Blockchain.BlockChain.InsertProposer` | src/blockchain/mod.rs:228-345 | the block is stored with parent first and references in order, its transaction references, level and parent link, and last on its level; unreferred sets, invariant and an unchanged ledger |
| `Blockchain.BlockChain.InsertVoter` | src/blockchain/mod.rs:347-398 | the block is stored with its voter parent, votes, chain and voted level; the best block changes only for a strictly higher level; invariant and an unchanged ledger |
| `Blockchain.BlockChain.InsertTransaction` | src/blockchain/mod.rs:399-411 | only existence and the unreferred set change, and the invariant is kept |
| `Links.ProposerLinked` | src/blockchain/mod.rs:270-340 | a proposer block keeps the unreferred sets exactly the blocks nobody refers to |
| `Links.TransactionLinked` | src/blockchain/mod.rs:399-411 | so does a transaction block |
| `Links.NotReferred` | src/blockchain/mod.rs:293-301 | a new block is referred to by nobody |
| `Blockchain.BlockChain.UpdateLedger` | src/blockchain/mod.rs:414-656 | tips move to the best blocks, affected levels are re-elected, the invariant is kept, and confirmed and deconfirmed proposer blocks and their transaction blocks turn the old ledger into the new one |
| `Blockchain.BlockChain.UpdateVotes` | src/blockchain/mod.rs:431-488 | the first stage on the fields: only the index and the tips change, the ledger does not |
| `Blockchain.BlockChain.UpdateOrder` | src/blockchain/mod.rs:490-656 | the second and third stage on the fields: leaders and ledger change together |
| `Blockchain.DiffTransactions` | src/blockchain/mod.rs:643-653 | the returned transaction blocks are those of the confirmed and deconfirmed proposer blocks, and the difference of the transaction ledgers |
| `ChainTheorems.ConfirmedLedger` | src/blockchain/mod.rs:562-641 | the ledger covers the longest run of levels with a leader; no repeats, references first, leaders last; confirmed and unconfirmed blocks partition all blocks |
| `ChainTheorems.SameLeadersSameLedger` | src/blockchain/mod.rs:562-641 | two nodes whose leaders agree up to a level hold the same ledger up to it, whatever their histories |
| `ChainTheorems.IndexIsMainChainVotes` | src/blockchain/mod.rs:445-488 | each ledger tip holds one vote per level up to its voted level, and the votes stored with a block are exactly the main-chain votes for it, each once |
| `Nodes.Check` | src/validation/mod.rs:97-186 | availability, proof and content checks pass if and only if the block is new, complete, and keeps the rules of its kind |
| `Nodes.CheckTransactions` | src/validation/mod.rs:167-179 | passes if and only if every transaction passes the three content checks |
| `Nodes.PassesIsAdmissible` | src/validation/mod.rs:142-166 | what passes the checks satisfies everything insertion relies on |
| `Nodes.FullNode.constructor` | src/blockchain/mod.rs:114-225 | a new node is valid, with an empty transaction ledger |
| `Nodes.FullNode.AddBlock` | src/network/worker.rs:240-298 | a block is inserted if and only if it passes; a rejected one changes nothing, and no insertion changes the ledger |
| `Nodes.FullNode.Insert` | src/blockchain/mod.rs:228-411 | the store grows by exactly the block, as it came |
| `Nodes.FullNode.BeginUpdate` | src/blockchain/mod.rs:431-488 | votes move while the ledger stays; blocks may be inserted before the second half |
| `Nodes.FullNode.EndUpdate` | src/ledger_manager/mod.rs:197-239 | leaders and ledger follow; the thread stops if and only if a newly confirmed proposer block refers to something that is no transaction block |
| `Nodes.Run` | src/blockchain/mod.rs:228-656 | after any blocks and halves of updates in any order from genesis, the stored ledger is the from-scratch linearization of the current leaders up to the first level without one, topological and without repeats, and partitions the blocks with the unconfirmed set |
| `Nodes.StoredAsAccepted` | src/blockchain/mod.rs:270-411 | after any run every accepted block is stored as it came: references in order, votes, named chain, transactions that passed their checks |
| `Events.RecordsAgree` | src/blockchain/mod.rs:276-285 | two stores that record blocks named by their hashes agree on the references of every block they share |
| `Nodes.NodesAgree` | src/blockchain/mod.rs:562-641 | two nodes hold the same ledger up to every level up to which they have the same leaders, whatever they have been through |
| `Nodes.LedgerLists` | src/ledger_manager/mod.rs:207-224 | the node's ledger entry by entry: transaction after transaction, block after block, each with its hash |
| `Nodes.LedgerIsChecked` | src/validation/mod.rs:167-179 | every transaction of a node's ledger has inputs and outputs, no zero value, and covers its outputs in 64 bits |
| `Nodes.LedgerHasNoZeroCoins` | src/validation/transaction.rs:12-15 | so every coin of its replay has value |
| `Nodes.CoinsFollowChain` | src/ledger_manager/mod.rs:37-239 | whatever the node has been through, once its diffs are written the coins are the replay of its own current ledger, for every interleaving |
| `Nodes.WrongReferencePasses` | src/blockchain/mod.rs:1052-1063 | a proposer block that lists a voter block as a transaction block passes every check |
| `Voting.CheckRefProposerLevel` | src/validation/proposer_block.rs:33-42 | passes if and only if no reference lies above the parent |
| `Voting.CheckLevelsVoted` | src/validation/voter_block.rs:40-59 | passes if and only if the votes name one block for each level after the last voted one, in order |
| `Voting.BestVote` | src/blockchain/mod.rs:950-980 | the most voted block of a level, lowest hash on ties |
| `Voting.UnvotedProposer` | src/blockchain/mod.rs:928-986 | each entry is the most voted block of its level, and the list passes the vote check if and only if the tip has not voted past the proposer parent |
| `Voting.MinedVotesAdmissible` | src/blockchain/mod.rs:347-378 | a block with accepted votes can be inserted, keeps the invariant and never lowers the voted level |
| `Utxo.CheckInputs` | src/utxodb/mod.rs:88-105 | the lookups succeed if and only if every input is unspent with its stated value; owners, removed coins and deletions are those of the inputs |
| `Utxo.PutOutputs` | src/utxodb/mod.rs:115-124 | the batch adds exactly the outputs, numbered in order |
| `Utxo.CheckOutputs` | src/utxodb/mod.rs:149-162 | the lookups succeed if and only if every output is present, and the batch deletes exactly those |
| `Utxo.PutInputs` | src/utxodb/mod.rs:164-173 | the batch writes back the inputs with their stated value and owner |
| `Utxo.UtxoDatabase.AddTransaction` | src/utxodb/mod.rs:77-136 | coins change as specified, or not at all when rejected; the reported difference matches |
| `Utxo.UtxoDatabase.RemoveTransaction` | src/utxodb/mod.rs:138-186 | coins change as specified if all outputs are present, and not at all otherwise |
| `Ownership.AcceptedIffAuthorized` | src/utxodb/mod.rs:88-113 | a transaction has an effect if and only if its inputs are there with their values, all their owners have signed, and nobody else has |
| `Ownership.UnauthorizedChangesNothing` | src/utxodb/mod.rs:106-113 | a missing or superfluous signature leaves the coins unchanged |
| `Ownership.SpentBySigner` | src/utxodb/mod.rs:77-136 | a coin that is gone was an input and its owner signed; a coin that changed has an id of the new outputs |
| `Ownership.SpentInList` | src/utxodb/mod.rs:77-136 | a coin that is gone after any list was spent by one of its transactions with its owner's signature |
| `Ownership.CommitsAreAuthorized` | src/ledger_manager/mod.rs:182-194 | the same for every commit of an added transaction in every reachable state of parallel execution |
| `Ownership.ReportIsTheChange` | src/utxodb/mod.rs:115-135 | the coins reported as added and removed are exactly the change of the coin set |
| `Rollback.UndoIsExact` | src/utxodb/mod.rs:138-186 | for any coins, transaction and hash: the exact condition under which adding and removing restores the coins |
| `Rollback.UndoFreshIsExact` | src/utxodb/mod.rs:138-186 | for a hash not in the coin set the condition is: rejected with an output, or inputs that describe the coins they spend |
| `Rollback.ReplayIsKnown` | src/utxodb/mod.rs:77-136 | every coin after a replay is an initial one or an output of a replayed transaction |
| `Rollback.NoZeroCoins` | src/validation/transaction.rs:12-15 | checked transactions never create a coin without value |
| `Rollback.RollbackIsExact` | src/utxodb/mod.rs:138-186 | removing the end of a replayed list in reverse gives the replay of what is left, rejected transactions included |
| `Rollback.RepeatedTransactionIsLost` | src/utxodb/mod.rs:149-173 | a validated payment that is in the ledger twice is lost when the rejected copy is rolled back |
| `Rollback.DiffReplays` | src/ledger_manager/mod.rs:64-141 | removed transactions in reverse, then added ones, take the replay of the old ledger to that of the new one |
| `Rollback.TotalAfterApply` | src/utxodb/mod.rs:77-136 | the exact change of the total, and that it does not grow if and only if the outputs are covered by the distinct coins spent |
| `Rollback.ValueNeverGrows` | src/validation/transaction.rs:7-22 | a validated transaction with distinct inputs and no 64-bit overflow never raises the total |
| `Rollback.ListingACoinTwiceMints` | src/validation/transaction.rs:7-22 | a transaction that lists a coin twice passes the three checks, is accepted, and raises the total by the coin's value |
| `Rollback.TotalNeverExceedsInitial` | src/utxodb/mod.rs:77-186 | no prefix of a replayed list, and so no rollback of its end, is worth more than the initial coins |
| `Jobs.ExecLocal` | src/ledger_manager/mod.rs:49-56 | a job depends on and changes only coins of the hashes it touches |
| `Jobs.ExecCommute` | src/ledger_manager/mod.rs:49-56 | jobs that touch disjoint hashes commute |
| `Jobs.ExecFirst` | src/ledger_manager/mod.rs:49-56 | a job disjoint from all earlier ones may run first |
| `Serializability.WriteIsExec` | src/utxodb/mod.rs:77-186 | a batch decided by single reads that are still current has the effect of the whole operation |
| `Serializability.CurrentAfter` | src/ledger_manager/mod.rs:182-194 | what a worker has read stays current under another in-flight job's batch |
| `Serializability.StepKeeps` | src/ledger_manager/mod.rs:56-194 | every step of dispatcher or worker keeps: one place and one record per job, disjoint records, scoreboard equal to their union, current reads, serial result |
| `Serializability.Serializable` | src/ledger_manager/mod.rs:56-194 | in every reachable state, completing what is in flight gives the serial result in dispatch order; when all is written the coins are those of serial execution |
| `Serializability.NeverPanics` | src/ledger_manager/mod.rs:73-94 | the dispatcher always finds the record of a transaction it is notified of |
| `Liveness.NothingHot` | src/ledger_manager/mod.rs:87-94 | with nothing in flight and nothing to report the scoreboard is empty, so the wait loop falls through |
| `Liveness.NeverStuck` | src/ledger_manager/mod.rs:64-194 | some thread can move unless all work is done |
| `Liveness.StepWorks` | src/ledger_manager/mod.rs:64-194 | every step but an arrival lowers the remaining work |
| `Liveness.RunsAreBounded` | src/ledger_manager/mod.rs:64-194 | between arrivals there are at most as many steps as the remaining work |
| `Liveness.ComesToRest` | src/ledger_manager/mod.rs:64-194 | a run that cannot go on has written everything, with the serial result |
| `LedgerManager.Gather` | src/ledger_manager/mod.rs:207-224 | every transaction of every block at its place, with its hash, and nothing else; stops if and only if some block is missing or no transaction block |
| `LedgerManager.GatherDiff` | src/ledger_manager/mod.rs:204-238 | both lists of a diff, or a stop, exactly when one of them has such a block |
| `LedgerManager.ExpandLists` | src/ledger_manager/mod.rs:214-223 | transaction i of block k is at the number of transactions before block k plus i |
| `LedgerManager.HoldsByBlock` | src/ledger_manager/mod.rs:207-213 | there is such a block if and only if a proposer block of the list refers to it |
| `LedgerManager.UpdateTransactionSequence` | src/ledger_manager/mod.rs:197-239 | stops if and only if a proposer block in the diff refers to something that is no transaction block; otherwise the returned transactions turn the old transaction ledger into the new one |
| `LedgerManager.DiffExec` | src/ledger_manager/mod.rs:69-139 | the jobs of a diff, run serially, remove in reverse and then add |
| `LedgerManager.SerialReplays` | src/ledger_manager/mod.rs:64-141 | serial execution of any sequence of diffs gives the replay of the last ledger |
| `LedgerManager.CoinsFollowLedger` | src/ledger_manager/mod.rs:37-194 | for every interleaving and every sequence of diffs the coins end as the replay of the current ledger |
| `Snapshots.UndoDrops` | src/utxodb/mod.rs:138-186 | taking back a transaction that touches nothing of what was applied after it gives the replay without it |
| `Snapshots.Lands` | src/ledger_manager/mod.rs:182-194 | a job that lands takes the replay of what was done to the replay of what is done then |
| `Snapshots.DiffsAreOrderly` | src/ledger_manager/mod.rs:69-139 | the jobs of any history of diffs add and remove at the end of the ledger and lead to its last ledger |
| `Snapshots.EveryStateIsAReplay` | src/ledger_manager/mod.rs:56-194 | in every reachable state, jobs in flight included, the coins are the replay of some list of the transactions |
| `Snapshots.ValueNeverExceedsInitial` | src/ledger_manager/mod.rs:56-194 | at every moment of every interleaving of any diffs the total is at most the initial one |
| `Merkle.TreeSize` | src/crypto/merkle.rs:26-47 | the array size follows from the leaf count and is odd, so every non-root layer starts at an odd index |
| `Merkle.TreeRoot` | src/crypto/merkle.rs:79-85 | the first node is the root of the recursive definition |
| `Merkle.SmallRoots` | src/crypto/merkle.rs:59-74 | left is hashed before right, and the odd node out with itself |
| `Merkle.ProofIsAccepted` | src/crypto/merkle.rs:89-121 | every leaf is accepted with its siblings against the root |
| `Merkle.ProofLength` | src/crypto/merkle.rs:194-214 | the accepted proof length is the least k with 2^k at least the number of leaves |
| `Merkle.TwoProofsCollide` | src/crypto/merkle.rs:194-245 | two different accepted pairs of leaf and proof exhibit two different hashed pairs with the same hash |
| `Merkle.OnlyTheLeafIsAccepted` | src/crypto/merkle.rs:194-245 | without collisions an index accepts exactly its own leaf and proof |
| `MerkleTrees.LayerSizes` | src/crypto/merkle.rs:26-39 | layer sizes before and after duplication |
| `MerkleTrees.FillLayer` | src/crypto/merkle.rs:59-74 | one layer of the array becomes the parents of the layer below, padded, with the rest unchanged |
| `MerkleTrees.Build` | src/crypto/merkle.rs:11-77 | the filled array is the tree of the recursive definition |
| `MerkleTrees.MerkleTree.constructor` | src/crypto/merkle.rs:11-77 | a new tree represents the hashed data |
| `MerkleTrees.MerkleTree.GetRoot` | src/crypto/merkle.rs:79-85 | the root of the leaves, zero for an empty tree |
| `MerkleTrees.MerkleTree.Proof` | src/crypto/merkle.rs:89-121 | the siblings along the path, nothing for an index out of range |
| `MerkleTrees.SiblingAt` | src/crypto/merkle.rs:101-108 | the parity of the array index finds the other child of the same parent |
| `MerkleTrees.UpChanges` | src/crypto/merkle.rs:142-173 | changing one node changes one node of the layer above, duplicates included |
| `MerkleTrees.RehashPath` | src/crypto/merkle.rs:134-188 | the in-place rewrite of the path gives the array of the changed leaves |
| `MerkleTrees.MerkleTree.Update` | src/crypto/merkle.rs:123-189 | after an update the array is the one built afresh from the changed data; an index out of range changes nothing |
| `MerkleTrees.Verify` | src/crypto/merkle.rs:194-245 | accepts if and only if the index is in range, the length fits and the recomputed hash is the root |
| `BlockBuffers.BlockBuffer.Insert` | src/network/buffer.rs:27-49 | the block waits for exactly the given dependencies, and both directions of the relation stay inverse |
| `BlockBuffers.BlockBuffer.Satisfy` | src/network/buffer.rs:52-67 | the hash is struck everywhere, and exactly the blocks waiting for nothing else are released, each once |
| `Wakeups.StepAwaited` | src/network/worker.rs:244-261 | a dependency found missing stays awaited under every step but its own wake-up |
| `Wakeups.ResolvedInChain` | src/network/worker.rs:304-315 | a released block has all its dependencies in the chain |
| `Wakeups.StepKeeps` | src/network/worker.rs:236-316 | every step of workers and miner keeps the invariant of block admission |
| `AdmissionTheorems.CausalAdmission` | src/network/worker.rs:236-316 | in every reachable state each block entered the chain once, after its parent and references |
| `AdmissionTheorems.NoLostWakeup` | src/network/worker.rs:236-316 | a waiting block that names kinds rightly waits only for blocks not in the chain or about to wake it, never for a satisfied one |
| `AdmissionTheorems.BufferAtRest` | src/network/worker.rs:236-316 | when all workers rest, such a block waits for exactly its missing dependencies, at least one |
| `AdmissionTheorems.ReleasedOnce` | src/network/worker.rs:304-315 | a released block goes back into the buffer only if it misnames a dependency |
| `AdmissionTheorems.BufferedTooLate` | src/validation/mod.rs:97-139 | a block is buffered on a dependency that will not wake it if and only if it asks for such a block as a kind it is not |
| `AdmissionTheorems.StrandedForever` | src/network/buffer.rs:52-67 | a block buffered on such a dependency stays there over any continuation |
| `AdmissionTheorems.MisnamedIsStranded` | src/validation/mod.rs:189-210 | whenever a dependency will wake nobody any more, a new block asking for it as a kind it is not is stranded on it |
| `AdmissionTheorems.GenesisStrands` | src/validation/mod.rs:189-210 | a block that names a voter genesis block as its parent is stranded from the start |
| `AdmissionTheorems.TransactionBlockIsSatisfied` | src/network/worker.rs:236-316 | blocks of other kinds than proposer get satisfied, and can then strand others |
| `AdmissionTheorems.NeverStuck` | src/network/worker.rs:236-316 | some worker can move unless all rest |
| `AdmissionLiveness.StepWorks` | src/network/worker.rs:236-316 | every step but an arrival lowers the remaining work |
| `AdmissionLiveness.RunsAreBounded` | src/network/worker.rs:236-316 | a run without arrivals is bounded by the remaining work |
| `AdmissionLiveness.ComesToRest` | src/network/worker.rs:236-316 | from any reachable state runs without arrivals are bounded, and one that cannot go on has all workers at rest |
| `Dedup.StepKeeps` | src/network/worker.rs:189-221 | registration excludes: one worker per hash, and only it can store the block |
| `Dedup.AcceptedOnce` | src/network/worker.rs:189-221 | over any run each block is handed on once, and only if it was not stored before |
| `Intake.TakenAreNew` | src/network/worker.rs:166-237 | blocks handed on by deduplication and not taken yet are new to admission |
| `Intake.Projects` | src/network/worker.rs:166-316 | every run of deduplication and admission together is a run of admission with the same end, so all of the above holds of the whole |
| `MemoryPools.MemoryPool.Insert` | src/miner/memory_pool.rs:45-69 | appends the transaction to all indexes unless the pool is over its limit |
| `MemoryPools.MemoryPool.IsDoubleSpend` | src/miner/memory_pool.rs:84-86 | true if and only if some pooled transaction has one of the inputs |
| `MemoryPools.MemoryPool.NewTransaction` | src/handler/new_transaction.rs:10-19 | the guard admits exactly new transactions without a shared input, and keeps the pool consistent |
| `MemoryPools.MemoryPool.RemoveAndGet` | src/miner/memory_pool.rs:88-96 | removes one transaction from all indexes, order of the rest kept |
| `MemoryPools.MemoryPool.RemoveByInput` | src/miner/memory_pool.rs:105-126 | ends without a failing unwrap and removes exactly the least set of transitive spenders, order of the rest kept |
| `MemoryPools.SpendersUnique` | src/miner/memory_pool.rs:105-126 | the least set of transitive spenders is determined by the pool and the input |
| `MemoryPools.OutsNamed` | src/miner/memory_pool.rs:114-123 | the coins a removed transaction dooms: its hash with an output's index, value and recipient |
| `MemoryPools.MemoryPool.RemoveConflicts` | src/handler/new_validated_block.rs:24-31 | one confirmed transaction takes out itself, then the transitive spenders of each of its inputs, and nothing else |
| `MemoryPools.MemoryPool.RemoveConfirmed` | src/handler/new_validated_block.rs:21-33 | the exact remaining pool, which shares no transaction and no input with the block |
| `MemoryPools.RemovedForCause` | src/handler/new_validated_block.rs:21-33 | every set closed over the block's transactions, conflicts and dependents contains all that is taken out |
| `MemoryPools.MemoryPool.GetTransactions` | src/miner/memory_pool.rs:129-135 | the first transactions in order of arrival |
| `MemoryPools.SearchHit` | src/miner/memory_pool.rs:110-124 | removing the spender of a doomed coin keeps the search minimal and dooms the coins it creates |
| `Sortition.CompareIsBigEndianOrder` | src/crypto/hash.rs:89-101 | comparing two halves is comparing the 256-bit big-endian numbers |
| `Sortition.FromBeInjective` | src/crypto/hash.rs:89-101 | equal values if and only if equal bytes |
| `Sortition.BelowDifficulty` | src/config.rs:118-136 | below the difficulty an in-range id is chosen, or the sum overflows, exactly under the stated condition |
| `Sortition.OnlyBelowDifficulty` | src/config.rs:118-136 | no hash at or above the difficulty is let through if and only if the second band ends at or below it |
| `Sortition.DefaultDifficultyOverflows` | src/config.rs:118-144 | with the default difficulty a mined hash overflows if and only if the proposer width exceeds the voters' total |
| `Sortition.DifficultyItselfPasses` | src/config.rs:123-129 | a difficulty at which the hash equal to it is let through |
| `Sortition.IdByBand` | src/config.rs:118-136 | what sortition returns, band by band, in numbers |
| `Sortition.ConsecutiveChains` | src/config.rs:130-132 | consecutive hashes above the bands select consecutive chains |
| `Sortition.PowVerdict` | src/validation/mod.rs:61-76 | the exact verdict for every block: passed, wrong proof of work, or failed |
| `Sortition.HeaderDecides` | src/validation/mod.rs:61-76 | two passing blocks with one header are of one kind and chain |
| `Sortition.WrappedChainPasses` | src/validation/mod.rs:67-67 | a voter content whose 16-bit id wraps passes as a proposer content |
| `Sortition.NewContents` | src/miner/mod.rs:86-108 | one candidate content per sortition id |
| `Sortition.ProduceBlock` | src/miner/mod.rs:490-504 | succeeds unless the bands overflow, and the block passes both checks of src/validation/mod.rs:61-95 |
| `Sortition.SortitionIsBinding` | src/validation/mod.rs:79-95 | without collisions a block passes the proof check if and only if it carries the candidate its header hash selects, with that candidate's proof |

## Left out

- Poisson distributions, variances, quantiles and all of `BlockchainConfig::new`: 32-bit floating point; the election takes a bound per block and sortition takes the widths as given.
- RocksDB, bincode, SHA-256, ed25519, `check_signature_batch`: foreign code; maps, atomic batches and hash functions as parameters stand for them.
- Reads of the store in the middle of `update_ledger` (`proposer_leaders`, `dump`). Insertions may fall between the vote stage and the leader stage of an update, not between the two writes of the leader and ledger stage.
- Ties of the election within `f32::EPSILON`: bounds are exact numbers, and a tie is equality.
- Integer widths other than those named above: levels, counters, coin indexes and array sizes are unbounded.
- `miner_loop`: that the content tree always matches the contents is a hypothesis of `Sortition.ProduceBlock`, since the loop may refresh only some of the changed entries.
- The genesis loops of `new` are given in closed form by `Store.Genesis`.
- A rendezvous channel (buffer size 0) between dispatcher and workers: `Liveness.NeverStuck` takes a capacity of at least one.
- Wallet updates, performance counters, peer messages, requests for missing blocks, `main.rs`, the API and visualization servers: input, output and glue.
- `get`, `contains` and `len` of the memory pool: one lookup each.
- Transactions are compared by all fields and hashed by a parameter; that different transactions have different hashes is required only where stated.
- BlockBuffers.BlockBuffer.Insert: takes a block that is not buffered yet; a second insertion would leave stale entries that make `satisfy` fail, and `Wakeups.StepPlaced` shows that workers never do it.
- Leader.ProposerLeader: the Poisson bound of a block is a parameter, and ties within `f32::EPSILON` are equality, because 32-bit floating point is not modelled.
- Rollback.ValueNeverGrows: asks for distinct inputs and sums below 2^64, which the checks do not ensure; `Rollback.TotalAfterApply` is the exact condition.
- Nodes.FullNode.AddBlock: the outcomes of the sortition proof check and of the signature check come with the block; the first is the subject of `Sortition`.
- MemoryPools.MemoryPool.Insert: takes the exclusion of duplicates and double spends as given, as the source does; `MemoryPools.MemoryPool.NewTransaction` establishes it.

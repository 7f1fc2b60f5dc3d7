# Verified model of a validium node

This project models the parts of the node that keep the hardest promises and proves those
promises in Dafny. `dafny verify dfyconfig.toml` checks all of it.

| file | what it models |
|---|---|
| MerkleSpec.dfy | the complete binary tree the L1 info tree stands for: the reference definition, independent of the code |
| L1InfoTree.dfy | the batch builder, the proof generator and the incremental tree of `l1infotree` |
| Pipeline.dfy | finalizer, L2-block processor and L2-block storer as one transition system |
| PipelineSafety.dfy | the invariant of the pipeline and that every step keeps it |
| PipelineTheorems.dfy | what follows for every run: reorg safety, one root chain, the state root sync, waits that end |
| PipelineLaws.dfy | more about every run: failures in a row, counts and numbers |
| PipelineExample.dfy | runs with a reorg, a batch closed too early, a nil batch at the sync and a halt, step by step |
| BatchResources.dfy | the counter arithmetic that decides what fits in a batch, and its recovery after a restart |
| TxSortedList.dfy | the list of transactions by gas price |
| AddrQueue.dfy | the queue of one sender, with its nonce and balance |
| ForcedBatches.dfy | sorting and draining the queue of forced batches |
| EthTxManager.dfy | re-signing and re-sending a payload to L1 without sending it twice |
| L1Events.dfy | L1 logs into blocks, lists and orders |
| BatchData.dfy | numbering, fetching and merging the data of sequenced batches |
| BytecodeHash.dfy | padding and packing of the bytecode for its sponge hash |
| FilterStorage.dfy | the indexes of the JSON-RPC filters |
| Wrappers.dfy | `Option` and `Result` |

## How the model relates to the code

Objects that the code updates in place are classes whose methods follow the code's branches and
loops; each method is proved against a specification that does not mention its body: the
complete tree, the multiset of queued transactions, the survivors of a run in arrival order, the
walk over the blocks, the pre-images of the hashes. The pipeline is a transition system in which
any goroutine may move next and the process may crash at any moment.

What the code cannot see is a parameter or is left open:

- Keccak and Poseidon are arbitrary functions. Nothing is assumed of them, no collision freedom
  either; the transaction manager identifies a signed transaction with its nonce, gas and gas price.
- The executor, the state database, the data sources and the L1 client answer anything their
  interface allows, including errors. In `ForcedBatches` and `BatchData` the answers are functions,
  in `EthTxManager` arguments of the cycle, in `Pipeline` they are chosen freely at every call.
- L1 mines at most one transaction per nonce of the sender, in the order of nonces, and receipts
  do not change. It may move between any two calls.
- A commit error in `finalizeSIPBatch` ends the process, because its message asks the sip batch,
  already nil, for its number (sequencer/batch.go:223-226). It is a restart before or after the commit.
- Clocks are arguments. `ExpireTransactions` reads the clock once.
- Integers wrap where the code's do: 32-bit lengths and counts in the tree, 32- and 64-bit counters
  in the resources, 64-bit batch numbers and gas. Other numbers are unbounded.

Where the code does something its comments or its callers do not expect, the model follows the
code, a member gives an input for which the expectation fails, and another states exactly when it
holds:

- The proof generator compares an index with a length truncated to 32 bits
  (`ProofSiblingIsTrue`, `WrappedProofExample`).
- The sanity check of the state root sync allows for a reorg on the first L2 block of the wip batch
  with at most one more closed; with two more it halts the node (`SyncCheckIsExact`,
  `HaltIsReachable`), and when nothing was stored yet it looks at a nil batch (`SyncMeetsNil`,
  `NilSipIsReachable`).
- The comment on the reorg handling takes a sip batch other than the wip batch to mean that the first
  block of the wip batch failed. A later block of the sip batch can fail too, and the batch is then
  closed without it (`ResetsToFailingBatch`, `EarlyCloseIsReachable`).
- The check after a successful `Fits`, commented as impossible to fail, can fail when
  used + high wraps (`AdmissionIsSound`, `WrappedAdmission`), and the gas reserve is forgotten when a
  load reserves less gas than it uses (`NeededGasIs`, `GasReserveForgotten`).
- A transaction whose used counters or bytes exceed a batch, with its reserved counters within, fits
  no batch and is never dropped (`DropIsRight`, `NeverFitsNeverDropped`).
- `updateCurrentNonceBalance` can lose a transaction when the nonce moves back
  (`UpdateCurrentNonceBalance`, `LostByGoingBack`). Its comment says that a ready transaction that is
  no longer affordable moves to the not-ready ones; the code returns it for deletion. `addTx` can
  overwrite a not-ready transaction at the current nonce without reporting it (`AddTx`,
  `LostByAdding`).
- Draining the forced batches over a gap empties the queue although a queued forced batch was not
  processed (`CompleteIffNoGap`, `ForgetsIff`, `ForgottenByGap`).
- A failed receipt check counts as neither mined nor missing, so the nonce can be moved past a
  success (`NonceReviewIsSafe`, `MissedSuccessDuplicates`).
- The order lists are keyed by block hash alone, so logs that return to a block are walked more
  than once (`WalkIsLogOrder`, `ReturnIsWalkedTwice`).
- Creating a filter under an id in use can leave the replaced filter in an index
  (`CreateFilter`, `StaleByReuse`).

## Model

| member | source | states |
|---|---|---|
| MerkleSpec.ThreeLeaves | l1infotree/tree.go:71-92 | a tree of three leaves written out: left before right, zero past the last leaf |
| MerkleSpec.NodeZero | l1infotree/tree.go:71-92 | every node of the complete tree that covers no leaf is the empty-subtree hash of its level, which is why padding a level with that one hash is enough |
| MerkleSpec.NodeUnchanged | l1infotree/tree.go:139-169 | appending a leaf changes only the nodes on its own path to the root |
| MerkleSpec.FoldIsNode | l1infotree/tree.go:95-136 | hashing up from any position with the tree's own neighbours, sides chosen by the bits of the index, gives the node above that position |
| L1InfoTrees.GenerateZeroHashes | l1infotree/hash.go:22-32 | entry h is the root of the empty tree of height h |
| L1InfoTrees.BuildIntermediate | l1infotree/tree.go:56-68 | the pairwise hashes of an even level, in order |
| L1InfoTrees.NextLevel | l1infotree/tree.go:76-86 | from the nodes of one level of the complete tree to those of the next, padding an odd level with the zero hash of the level |
| L1InfoTrees.L1InfoTree.BuildL1InfoRoot | l1infotree/tree.go:71-92 | succeeds exactly when the height is at least 1 and there are at most 2^height leaves, and then returns the root of the complete tree padded with zero leaves |
| L1InfoTrees.OneRoot | l1infotree/tree.go:87-91 | the top level has one node exactly when the leaves fit |
| L1InfoTrees.L1InfoTree.ProofLoop | l1infotree/tree.go:99-128 | the siblings picked level by level, and the levels they are picked from |
| L1InfoTrees.L1InfoTree.ComputeMerkleProof | l1infotree/tree.go:95-136 | same success condition and same root as the batch builder; for every index below 2^height, also past the last leaf, folding the leaf with the returned siblings gives the returned root |
| L1InfoTrees.ProofSiblingIsTrue | l1infotree/tree.go:106-113 | every sibling is the true neighbour in the complete tree, if and only if it is above the bottom level, there are at most 2^32-2 leaves, or the neighbouring leaf is zero: with 2^32-1 or 2^32 leaves the length is 0 in 32 bits |
| L1InfoTrees.ProofVerifies | l1infotree/tree.go:95-136 | the proof of any position leads from its leaf, zero when unoccupied, to the root |
| L1InfoTrees.WrappedProofExample | l1infotree/tree.go:106-107 | a concrete list of 2^32 leaves whose proof has a wrong sibling |
| L1InfoTrees.Climb | l1infotree/tree.go:146-165 | one level of the incremental climb: the running hash is the node above the new leaf, and what is remembered is the root of the full subtree to the left |
| L1InfoTrees.L1InfoTree.ClimbLevel | l1infotree/tree.go:146-165 | one turn of the loop keeps the remembered roots right for count + 1 |
| L1InfoTrees.L1InfoTree.ClimbFrom | l1infotree/tree.go:143-165 | the loop ends with the root over the new leaf and with every sibling at a set bit of count + 1 the root of the full subtree to its left |
| L1InfoTrees.L1InfoTree.AddLeaf | l1infotree/tree.go:139-169 | refuses any index but the count; otherwise the new root is the batch root of all the leaves while they fit, the siblings stay right, only the one at the bit that becomes set in the count changes, and on a full tree the answer is the root of the next tree to the right |
| L1InfoTrees.L1InfoTree.InitSiblings | l1infotree/tree.go:173-193 | an error when the count does not match; otherwise the siblings a tree starts from are the zero hashes or the proof of the first free position, and the full-subtree roots at the set bits of the count |
| L1InfoTrees.L1InfoTree.New | l1infotree/tree.go:20-35 | succeeds exactly when the leaves fit; the tree it returns satisfies the invariant AddLeaf needs |
| L1InfoTrees.L1InfoTree.Reset | l1infotree/tree.go:38-54 | a new tree of height 32, whatever the height of the old one |
| L1InfoTrees.IncrementalMatchesBatch | l1infotree/tree.go:139-193 | for every initial list and every run of additions that fits, the incremental root equals the batch root of all the leaves |
| PipelineSafety.PropagateMemory | sequencer/l2block.go:192-205 | the block to be executed finds the pip batch to be its own, holding the root its predecessor produced; the first block of another batch hands that batch the root as its initial and final one |
| PipelineSafety.DbClose | sequencer/batch.go:368-416 | closing the last batch keeps the numbering, the root chain and the stored blocks |
| PipelineSafety.DbAppend | sequencer/l2block.go:486-545 | storing a block in the open batch keeps them and adds exactly that block |
| PipelineSafety.DbInsert | sequencer/batch.go:322-353 | inserting the next batch with its first block keeps them |
| PipelineSafety.InitKeeps | sequencer/batch.go:110-148 | starting from the database, after a restart or a reorg, establishes the invariant |
| PipelineSafety.NextKeeps | sequencer/l2block.go:107-189 | every step of every goroutine keeps the invariant: closing, sending, receiving and flushing a block, executing it or failing, flagging the reorg, forwarding, storing, opening a batch, syncing, halting on a batch number, every step of the reorg handling with its database failures, and a crash and restart at any moment |
| PipelineSafety.RunKeeps | sequencer/l2block.go:107-189 | the invariant holds in every state of every run: the wait groups count what is in flight, at most one block is being processed and one stored, the executed blocks are chained, and the store holds a prefix of them |
| PipelineTheorems.FailureFreezes | sequencer/l2block.go:107-189 | once an L2 block has failed, no later block is executed or stored before the reorg handling resets the state, in every interleaving; only blocks closed before the failing one get stored |
| PipelineTheorems.ReorgCloseIsExact | sequencer/batch.go:151-165 | the reorg handling closes the sip batch exactly when the block before the failing one is of an earlier batch than the wip one; if the database refuses nothing changes and it is tried again |
| PipelineTheorems.ResetFollowsClose | sequencer/batch.go:151-172 | nothing happens between closing the sip batch and the reset |
| PipelineTheorems.ResetIsExact | sequencer/batch.go:151-179 | at the reset the store holds exactly what it held before plus the blocks closed before the failing one, in order, and its last batch is open exactly when the wip batch holds one of them; it goes on with that batch or with the next one, from the root of the last of them |
| PipelineTheorems.ResetsToFailingBatch | sequencer/batch.go:154-160 | it goes on with the batch of the failing block, if and only if that is the wip batch or the block is the first of its batch |
| PipelineTheorems.StartLoads | sequencer/batch.go:110-148 | a start goes on with an open last batch as it was when its last block was stored, and opens the next one after a closed one |
| PipelineTheorems.HaltIsExact | sequencer/batch.go:263-273 | when the node halts on a batch number the last batch is closed and the store holds exactly every block closed, up to a failing one |
| PipelineTheorems.StoreIsOneChain | sequencer/batch.go:322-416 | in every state of every run, through reorgs and restarts, every stored L2 block was executed from the root its predecessor produced, also across batches; batch numbers are consecutive, each batch starts from the final root of the one before, and at most the last is open |
| PipelineTheorems.SyncMeetsNil | sequencer/l2block.go:610 | at the state root sync the sip batch is nil exactly when nothing was stored since a start without an open batch; only a flagged reorg leads there |
| PipelineTheorems.SyncCheckIsExact | sequencer/l2block.go:604-612 | the sanity check of the sync halts the node if and only if a reorg is flagged, the wip batch has more than two L2 blocks, and the block before the failing one is of an earlier batch |
| PipelineTheorems.SyncEndIsExact | sequencer/l2block.go:604-617 | the finalizer halts after the sync in exactly that case and goes on otherwise, with nothing else changed |
| PipelineTheorems.SyncFindsItsBatch | sequencer/l2block.go:604-617 | without a reorg flagged the sip batch is the wip batch and the root to continue from is the root in the store |
| PipelineTheorems.WaitersAreServed | sequencer/l2block.go:770-780 | while the processor has not halted, pending blocks leave the processor or the storer able to move |
| PipelineTheorems.WaitEnds | sequencer/l2block.go:770-780 | the wait for pending blocks ends: while the finalizer waits the others take a bounded number of steps, and when they can take no more both wait groups are at zero, unless the processor halted |
| PipelineTheorems.SipHasBlocks | sequencer/batch.go:368-378 | the batch in storing is never empty, so closing it never halts the node |
| PipelineLaws.SecondFailureHalts | sequencer/l2block.go:121-148 | a failing block halts the processor, if and only if the last block it finished since the node was started failed too; a block handed to the storer in between prevents it, a reorg reset does not |
| PipelineLaws.BlocksAreCounted | sequencer/l2block.go:562-580 | in every state of every run each batch counts exactly its closed blocks, and the blocks are numbered in the order they were closed |
| PipelineLaws.EmptyBatchHalts | sequencer/batch.go:356-366 | going on to the next batch halts the finalizer exactly when the wip batch has no block |
| PipelineLaws.HaltingHasBlocks | sequencer/batch.go:356-366 | the halt on a batch number comes only after a wip batch with blocks |
| PipelineExample.ReorgIsReachable | sequencer/l2block.go:107-189 | a run from the genesis batch that stores one L2 block, fails on the next and resets the state, so the statements about reorgs are not empty |
| PipelineExample.EarlyCloseIsReachable | sequencer/batch.go:154-161 | a run in which the second block of batch 1 fails with batch 2 already open: batch 1 is closed without it and the node goes on with batch 2 |
| PipelineExample.NilSipIsReachable | sequencer/l2block.go:610 | a run in which the very first L2 block fails and the sync looks at a nil sip batch |
| PipelineExample.HaltIsReachable | sequencer/l2block.go:610-612 | a run in which the first block of the second batch fails, two more are closed before the flag is looked at, and the check of the sync halts the node |
| BatchResources.Exceeded | state/types.go:186-217 | no name exactly when all counters fit |
| BatchResources.ExceededNamesFirst | state/types.go:186-217 | the name reported is that of the first counter that exceeds, in the order of the test |
| BatchResources.Fits | state/types.go:268-273 | true exactly when bytes and all counters fit |
| BatchResources.NamesAgree | state/types.go:268-289 | both tests report the bytes first and then the first counter that exceeds |
| BatchResources.Sub | state/types.go:276-289 | overflows exactly when something does not fit, then changes nothing; otherwise the difference is exact |
| BatchResources.AdmissionIsSound | sequencer/batch.go:612-653 | after a successful test the used counters can be subtracted and what remains covers the new high counters, if and only if used + high did not wrap |
| BatchResources.NeededGasIs | sequencer/batch.go:638-650 | the gas needed is the used gas plus the larger of the high and the excess, in 64 bits, and exactly so if and only if used plus high does not wrap; the new high is that larger one, or zero when less is reserved than used |
| BatchResources.NeededAt | sequencer/batch.go:612-653 | the same for every counter in its own width |
| BatchResources.ChargeKeepsCover | sequencer/finalizer.go:684-728 | a charge leaves the remaining counters above the high ones, exactly unless it was admitted on a wrapped sum; without a wrap the test alone decides |
| BatchResources.RunStaysCovered | sequencer/finalizer.go:684-700 | throughout every sequence of charges of transactions and L2 blocks each remaining counter is at least its high reserved counter, if and only if no load is admitted on a wrapped sum |
| BatchResources.RangeIsEnough | sequencer/batch.go:613-624 | a bound on the used counters, known before the run, under which no sum of it wraps |
| BatchResources.FitsNeverOverflows | sequencer/finalizer.go:687-697 | the sanity check after a successful Fits never fires, at any point of a run in which no sum has wrapped |
| BatchResources.AdmissionIsExact | sequencer/batch.go:610-653 | the incremental test admits a load whose sums do not wrap exactly when the total used plus the largest excess of all the admitted loads, this one included, stays within the batch; for the gas as long as no admitted load reserved less of it than it used |
| BatchResources.RunTotals | sequencer/finalizer.go:684-700 | after every run, whatever wraps, the remaining resources are the start minus the total of the admitted loads |
| BatchResources.RunIsAccounted | sequencer/batch.go:610-653 | after every run without a wrap the high counters are the largest excess of the admitted loads; the gas one if every load reserves the gas it uses |
| BatchResources.GasReserveForgotten | sequencer/batch.go:638-640 | three loads, one reserving less gas than it uses, that together leave no room for what the first one reserved |
| BatchResources.WrappedAdmission | sequencer/batch.go:613-624 | a load that passes the test on a wrapped sum and overflows the subtraction |
| BatchResources.FitsEmptyIff | sequencer/batch.go:610-653 | a transaction fits an empty batch exactly when its reserved counters, its used counters and its bytes are all within the batch |
| BatchResources.FitsEmptyFirst | sequencer/batch.go:610-653 | what fits some batch on sums that do not wrap fits an empty one |
| BatchResources.DropIsRight | sequencer/finalizer.go:702-722 | a transaction is dropped only if it does not fit an empty batch; the decision is right both ways if and only if it is not just its used counters or bytes that exceed the batch |
| BatchResources.NeverFitsNeverDropped | sequencer/finalizer.go:704 | a transaction that uses more than a batch has but reserves less fits no empty batch and is never dropped |
| BatchResources.StoredIsUsed | sequencer/l2block.go:491-502 | the counters stored with the blocks are what the final budget lost, without a wrap, and the stored high counters are its own |
| BatchResources.StoredBytesAre | sequencer/l2block.go:491-492 | the bytes stored are those of the data stored for the blocks, in 64 bits |
| BatchResources.RestartRecovers | sequencer/batch.go:84-104 | setting the wip batch from the stored row rebuilds the counters and high counters the sequencer held after the last stored block, and the whole budget if and only if as many bytes were stored as were run |
| BatchResources.ClosingReportsTotals | sequencer/batch.go:575-590 | the resources reported for a closed batch are the totals of what it admitted |
| BatchResources.Batch.Open | sequencer/batch.go:304-319 | a new batch has all its resources and no reserve |
| BatchResources.Batch.ChargeTx | sequencer/finalizer.go:684-728 | the transaction is charged to the intermediate budget as specified; the invariant holds afterwards unless it was admitted on a wrapped sum |
| BatchResources.Batch.ChargeNewBlock | sequencer/l2block.go:678-711 | the same for an empty L2 block with its poseidon hashes doubled plus two |
| BatchResources.Batch.MoveBlock | sequencer/batch.go:285-296 | an empty L2 block is charged to the batch opened for it without leaving a reserve; an overflow changes nothing |
| BatchResources.Batch.ProcessBlock | sequencer/l2block.go:242-264 | a processed L2 block is charged to the final budget, and either overflow leaves it alone |
| TxSortedLists.Search | sequencer/txsorted_list.go:116-118 | the bisection finds the first index at which a monotone condition holds |
| TxSortedLists.InsertKeepsOrder | sequencer/txsorted_list.go:115-124 | inserting behind every price that is not lower keeps descending price and arrival order among equals |
| TxSortedLists.DropKeepsOrder | sequencer/txsorted_list.go:70-76 | so does dropping one transaction |
| TxSortedLists.OrderIsUnique | sequencer/txsorted_list.go:12-16 | descending price with earlier arrivals first determines the list |
| TxSortedLists.TxSortedList.constructor | sequencer/txsorted_list.go:19-24 | an empty list |
| TxSortedLists.TxSortedList.Add | sequencer/txsorted_list.go:27-37 | adds exactly the transactions whose hash is new, at the end of the arrivals, and keeps order and index |
| TxSortedLists.TxSortedList.InsertionPoint | sequencer/txsorted_list.go:116-118 | the first transaction with a lower price |
| TxSortedLists.TxSortedList.AddSort | sequencer/txsorted_list.go:115-124 | the list with the transaction in its place |
| TxSortedLists.TxSortedList.Position | sequencer/txsorted_list.go:45-68 | the scan always finds a held transaction |
| TxSortedLists.TxSortedList.Delete | sequencer/txsorted_list.go:40-81 | succeeds exactly when the transaction is held, and leaves the others in their order |
| TxSortedLists.TxSortedList.GetByIndex | sequencer/txsorted_list.go:84-91 | the held transaction at the index |
| TxSortedLists.TxSortedList.ReadAll | sequencer/txsorted_list.go:84-101 | reading every index gives the transactions held, each once, by descending price and arrival |
| TxSortedLists.BestFirst | sequencer/txsorted_list.go:27-37 | three transactions of two prices in the order they are read |
| TxSortedLists.Replay | sequencer/txsorted_list.go:27-124 | after every run of additions and deletions the list is the survivors by descending gas price, earlier-added first among equals, and the map holds the same transactions |
| AddrQueues.AddrQueue.constructor | sequencer/addrqueue.go:26-37 | an empty queue at the nonce and balance |
| AddrQueues.AddrQueue.AddCurrent | sequencer/addrqueue.go:46-61 | a transaction at the current nonce becomes ready if affordable and not ready otherwise, unseating the ready one |
| AddrQueues.AddrQueue.AddLater | sequencer/addrqueue.go:69-75 | a transaction at a later nonce takes its place among the not-ready ones |
| AddrQueues.AddrQueue.AddTx | sequencer/addrqueue.go:43-81 | dropped exactly when the nonce is too low or a strictly better price is queued where it is looked for, so an equal price replaces; otherwise the queue gains it and loses exactly those it displaces, each of them reported if and only if no other not-ready one at the current nonce is overwritten |
| AddrQueues.AddrQueue.ExpireTransactions | sequencer/addrqueue.go:94-116 | removes and returns exactly the transactions held for too long |
| AddrQueues.AddrQueue.DeleteTx | sequencer/addrqueue.go:124-144 | removes one transaction with the hash, if there is any, and nothing else |
| AddrQueues.AddrQueue.DropStale | sequencer/addrqueue.go:190-204 | the not-ready transactions below the nonce go, and only they |
| AddrQueues.AddrQueue.SetNonceBalance | sequencer/addrqueue.go:182-205 | the new nonce and balance, and what they leave behind |
| AddrQueues.AddrQueue.Promote | sequencer/addrqueue.go:216-226 | the not-ready transaction at the current nonce becomes ready if affordable; nothing is lost |
| AddrQueues.AddrQueue.Reseat | sequencer/addrqueue.go:207-239 | afterwards the ready transaction is the old one if it still can be, else the affordable not-ready one at the current nonce, else there is none; the old one is put back or given up |
| AddrQueues.AddrQueue.UpdateCurrentNonceBalance | sequencer/addrqueue.go:181-240 | keeps the invariant for every nonce and balance; which transaction is ready afterwards; what was queued is what is queued plus what is returned for deletion, if and only if the nonce does not move back below a ready transaction whose not-ready place is taken |
| AddrQueues.LostByGoingBack | sequencer/addrqueue.go:229-232 | two transactions of which one is neither queued nor deleted after the nonce goes back |
| AddrQueues.LostByAdding | sequencer/addrqueue.go:56-60 | two transactions at the current nonce, neither affordable, of which the second overwrites the first without reporting it |
| ForcedBatches.SelectLeast | sequencer/forcedbatch.go:218-222 | the inner loop brings the least of the rest into place, permuting the rest |
| ForcedBatches.SortForcedBatches | sequencer/forcedbatch.go:212-226 | the slice is sorted in place into ascending order and is a permutation of what it was |
| ForcedBatches.Finalizer.ProcessForcedBatch | sequencer/forcedbatch.go:61-146 | one committed batch on the given root, or on any error nothing, with the last batch and root as they were |
| ForcedBatches.Finalizer.ProcessForcedBatches | sequencer/forcedbatch.go:16-59 | the forced batches processed have numbers L+1 to L+k in batches B+1 to B+k, each executed on the root of the one before, and are what the queued ones handled so far call for; all are handled and the queue is emptied if and only if every missing one is found and every one succeeds at its own batch number and root, and otherwise the next one is the first for which that fails |
| ForcedBatches.DrainNumbers | sequencer/forcedbatch.go:28-55 | what a run processes has consecutive numbers whatever the queue holds |
| ForcedBatches.CompleteIffNoGap | sequencer/forcedbatch.go:28-57 | for a sorted queue, repeats included, a run without failures processes exactly the queued numbers above the last trusted one, if and only if there is no gap above it, and then everything processed was queued; without repeats it is every queued forced batch above the last trusted one |
| ForcedBatches.ForgetsIff | sequencer/forcedbatch.go:28-57 | for every sorted queue, repeats included, a run without failures leaves a queued forced batch out if and only if there are too few queued ones behind some number to reach the last one |
| ForcedBatches.GapForgets | sequencer/forcedbatch.go:28-57 | without repeats, if and only if there is a gap |
| ForcedBatches.GapLosesOne | sequencer/forcedbatch.go:28-57 | when every missing one asked for is found and there is a gap, a queued forced batch above the last trusted one is not among those processed |
| ForcedBatches.ForgottenByGap | sequencer/forcedbatch.go:32-57 | with 4 trusted, 5 and 7 queued and the forced batches up to 7 in the state, 5 and 6 are processed, the queue is emptied and 7 is forgotten |
| EthTxManager.SucceedsAtMostOnce | ethtxmanager/ethtxmanager.go:318-341 | with everything sent stored before, no history above the nonce and no success below it, the payload succeeded at most once |
| EthTxManager.NonceReviewIsSafe | ethtxmanager/ethtxmanager.go:329-341 | moving the nonce when all checked history failed leaves no success behind, on any L1 that fits the record and the answers, if and only if at the stored nonce no check failed or some transaction was seen mined; with all checks answered the past was mined and failed |
| EthTxManager.PastErrorIsSafe | ethtxmanager/ethtxmanager.go:290-295 | a history in which a check fails below the stored nonce and the move is safe all the same |
| EthTxManager.MissedSuccessDuplicates | ethtxmanager/ethtxmanager.go:290-295 | a history in which a check fails on a success and is not settled, so that the nonce is reviewed and the payload is mined twice |
| EthTxManager.Client.constructor | ethtxmanager/ethtxmanager.go:62-110 | a new payload starts at the nonce of the account with an empty history |
| EthTxManager.Client.CheckTxWasMined | etherman/etherman.go:1959-1968 | an answer with a receipt, or that there is none, is true of L1, and only a failing call gives none |
| EthTxManager.Client.CheckHistory | ethtxmanager/ethtxmanager.go:279-316 | the three flags say whether a checked receipt succeeded, failed or was missing, every history transaction was checked unless one succeeded, and what L1 had mined before is answered so |
| EthTxManager.Client.ReviewNonce | ethtxmanager/ethtxmanager.go:549-564 | the nonce becomes that of the account if it is larger, unless a call fails; moving it is safe on any L1 that fits the answers exactly if the failed checks at the stored nonce are settled, and with all checks answered the whole past was mined and failed |
| EthTxManager.Client.ReviewGas | ethtxmanager/ethtxmanager.go:511-541 | gas and gas price become the suggested ones if they are larger, unless a call fails |
| EthTxManager.Client.Sign | ethtxmanager/ethtxmanager.go:379-406 | the transaction has the stored nonce and gas price and the stored gas plus its offset, and is in the stored history before it is used |
| EthTxManager.Client.Send | ethtxmanager/ethtxmanager.go:408-432 | only what is in the stored history is sent, exactly when the network does not know it, and a created payload becomes sent |
| EthTxManager.Client.SignAndSend | ethtxmanager/ethtxmanager.go:354-456 | gas, signature, history, sending and receipt in this order, each only after the one before succeeded |
| EthTxManager.Client.Finish | ethtxmanager/ethtxmanager.go:457-480 | confirmed after a successful receipt, failed after another one that is not worth going on with, with its block; confirmed only if some history transaction succeeded on L1 |
| EthTxManager.Client.MonitorTx | ethtxmanager/ethtxmanager.go:277-480 | one cycle with L1 moving between all calls and any call failing: a success in the history confirms the payload and nothing is sent; otherwise the nonce is reviewed exactly when all history was seen mined and failed, which is safe exactly if the failed checks at the stored nonce are settled, and unless it was reorged it is signed and sent again |
| EthTxManager.Client.Step | ethtxmanager/ethtxmanager.go:247-272 | only created, sent and reorged payloads are monitored, and one with a success in its history is confirmed by the next cycle without errors |
| EthTxManager.Client.Reorg | ethtxmanager/ethtxmanager.go:222-244 | exactly a payload with a receipt from the block on is opened again, a done one too, without touching its history or nonce |
| EthTxManager.Client.SetStatusDone | ethtxmanager/ethtxmanager.go:148-157 | the status becomes done whatever it was, and nothing else changes |
| EthTxManager.Client.ProcessResult | ethtxmanager/ethtxmanager.go:629-643 | exactly a payload read as confirmed is set as done, also when a reorg notice comes in between |
| EthTxManager.Client.Run | ethtxmanager/ethtxmanager.go:247-272 | over every sequence of cycles, reorg notices and owner turns the payload succeeds on L1 at most once unless the nonce moved with a failed check at that nonce unsettled; with all checks answered, all history below the nonce was mined and failed |
| L1Events.WalkAppended | etherman/etherman.go:758-774 | an event appended to its list is read last at the recorded position, and earlier positions read as before |
| L1Events.GroupedWalks | etherman/etherman.go:508-531 | when the logs of every block are contiguous, walking the blocks and orders gives back the events |
| L1Events.UngroupedIsLonger | etherman/etherman.go:508-531 | when they are not, the walk has more events than there were |
| L1Events.WalkIsLogOrder | etherman/etherman.go:508-531 | walking the blocks at the recorded positions yields exactly the events, in log order and in their blocks, if and only if no block is returned to after it was left |
| L1Events.ReturnIsWalkedTwice | etherman/etherman.go:767-774 | three logs that return to the first block, whose walk has more events than there were |
| L1Events.Reader.AddEvent | etherman/etherman.go:1088-1160 | what all handlers do: the event goes to its list in the block of its log and its position to the orders of the block, or on an error nothing changes |
| L1Events.Reader.UpdateForkId | etherman/etherman.go:777-808 | fork changes of another rollup are ignored |
| L1Events.Reader.ProcessEvent | etherman/etherman.go:533-665 | each topic is recorded under its own order with its item last in its own list, ignored, or ends with an error; which calls it needs to answer for that |
| L1Events.Reader.ReadEvents | etherman/etherman.go:508-531 | an error exactly when some log fails; otherwise walking the result yields the handled events of this rollup in log order, if and only if the logs of each block are contiguous |
| BatchData.NumbersAreConsecutive | etherman/etherman.go:1396-1400 | the batch numbers are consecutive, end at the last one and are all different, in 64 bits |
| BatchData.CheckBatches | dataavailability/dataavailability.go:125-146 | succeeds exactly when every number is there with its hash, and returns the data in the order asked for |
| BatchData.RpcData | dataavailability/dataavailability.go:151-183 | what the trusted sequencer answers is returned exactly when all of it is there with the right hashes |
| BatchData.AnswerLaws | dataavailability/dataavailability.go:87-123 | a local error ends the search, incomplete local data is passed over, the trusted sequencer does not ask itself, the backend has the last word and an unknown source none |
| BatchData.GetBatchL2Data | dataavailability/dataavailability.go:87-123 | the first source with an answer decides; whichever it is, each datum is the pre-image of its hash, given the contract of the external backend |
| BatchData.PlaceOf | etherman/etherman.go:1470-1485 | every batch finds its number and hash again in the list of its kind |
| BatchData.GetNonForced | etherman/etherman.go:1470-1499 | every non-forced batch has data with its hash, if and only if no number comes with two hashes; a short answer is an error |
| BatchData.GetForced | etherman/etherman.go:1501-1530 | every forced batch has data with its hash, or it is an error |
| BatchData.RetrieveBatchData | etherman/etherman.go:1449-1468 | for any mix of forced and non-forced batches the i-th datum has the i-th hash, if and only if no number of a non-forced batch comes with two hashes; for different numbers it succeeds exactly when both kinds were answered, and a forced batch has the datum of the state under its number, another one the datum at its place in the answer |
| BatchData.DecodeValidium | etherman/etherman.go:1372-1438 | the decoded batches have consecutive numbers up to the last one and the fields of their call; those with a forced timestamp have the pre-image of their hash from the state, the others the answer of the first source; success exactly when both were answered |
| BatchData.DecodeOrdinary | etherman/etherman.go:1372-1438 | without forced batches the data is, in order, the answer for all the numbers and hashes, and it succeeds exactly when that is complete |
| BytecodeHash.PaddingIsReversible | merkletree/key.go:124-132 | the code can be read back from the padded code |
| BytecodeHash.PackingIsReversible | merkletree/key.go:147-168 | the bytes can be read back from the words |
| BytecodeHash.WordAt | merkletree/key.go:147-168 | each word is its own seven bytes, the first one the least significant, written out, and is below 2^56 |
| BytecodeHash.Pad | merkletree/key.go:124-132 | the code, 0x01, zeros up to a whole chunk, and the top bit of the last byte, byte by byte |
| BytecodeHash.PackChunk | merkletree/key.go:147-168 | eight words of a chunk, filled through a buffer from its end |
| BytecodeHash.HashContractBytecode | merkletree/key.go:116-189 | the capacities it goes through: from zero, each the hash of the eight words of the next 56 padded bytes and the one before, to the result or to the first call that fails |
| BytecodeHash.AbsorbingIsReversible | merkletree/key.go:116-189 | the code can be read back from the absorbed words |
| BytecodeHash.AbsorbingIsInjective | merkletree/key.go:116-189 | different bytecodes are absorbed as different words |
| FilterStorage.Storage.constructor | jsonrpc/storage.go:35-46 | empty and consistent |
| FilterStorage.Storage.CreateFilter | jsonrpc/storage.go:68-110 | the per-connection and per-type maps hold exactly the matching filters afterwards, if and only if the id is new or the replaced filter was in the same maps |
| FilterStorage.Stale | jsonrpc/storage.go:92-108 | any other replaced filter stays behind in a map |
| FilterStorage.StaleByReuse | jsonrpc/storage.go:90-98 | an id given to a filter of another connection leaves the replaced filter in the entry of the first one |
| FilterStorage.OnlyConnectedAreIndexed | jsonrpc/storage.go:90-108 | a filter without a connection is in no index |
| FilterStorage.Storage.DeleteFilter | jsonrpc/storage.go:230-247 | the filter leaves every map, and a connection without filters leaves too |
| FilterStorage.Storage.UninstallFilter | jsonrpc/storage.go:191-206 | removes exactly the filter with the id, or says it is not there |
| FilterStorage.Storage.UninstallFilterByWSConn | jsonrpc/storage.go:209-227 | removes exactly the filters of the connection |

## Left out

- L1InfoTrees.IncrementalMatchesBatch: at most 2^32 leaves in all, because the 32-bit count wraps, and a leaf added to 2^32 - 1 initial ones needs the last of them to be zero, because of the truncated length (`ProofSiblingIsTrue`).
- L1InfoTrees.L1InfoTree.AddLeaf: the invariant is promised only below 2^32 leaves, where the count wraps to zero.
- PipelineTheorems.WaitEnds: bounds the steps of the others while the finalizer waits; that the scheduler lets them take their steps, and that the executor and the database answer, is not modelled.
- BatchResources.AdmissionIsExact: for a load whose used plus high counters do not wrap; what a wrap does is stated by `AdmissionIsSound` and `WrappedAdmission`.
- EthTxManager.Client.Run: receipts never change, so an L1 reorg that removes a mined transaction is not modelled; the reorged status is.
- BatchData.RetrieveBatchData: which answers lead to success is stated for different batch numbers, as the decoder makes them.
- BatchData.DecodeValidium: the call data is already unpacked; at most 2^64 - 1 batches, as a slice cannot hold more.
- L1Events.Reader.AddEvent: the decoded content of an event is one opaque item; parsing and the fields of the block header are not modelled.
- Pipeline: the sequential mode, context cancellation, forced batches between batches, blob gas, flush ids, the sanity check of closed batches, the data stream and the limits that decide when a block or batch is closed; a batch may be closed between any two L2 blocks and the node may halt at any point.
- Worker and pool: choosing the transaction to execute next, the set of address queues, forced and pending-to-store transaction sets, failure reasons and zk counters of a queued transaction.
- Aggregator, prover, synchronizer and sequence sender: their central choices are made in storage queries outside the modelled files.
- Effective gas price, gas price suggestion, fees and metrics: estimates in floating point.
- JSON-RPC endpoints, the sending of subscription data and the last poll time of a filter.
- Sparse Merkle tree keys other than the bytecode hash, which are single Poseidon calls on fixed arguments, and the conversions between big integers and eight 32-bit limbs.
- Aliasing of the caller's slice by the first append of the bytecode hash and of the list sort.

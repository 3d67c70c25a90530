# A verified model of neox-rs

A Dafny model of five stateful parts of the node and of the properties they are built around:

- **Big blocks** (`BigBlockPlan`, `BlockHashes`, `BigBlockExecutor`): many blocks run as one stream of
  transactions.
  The executor closes one inner block and opens the next inside a commit; workers find their segment by
  binary search. The model proves that what is executed, the receipts and the gas are those of running
  every block on its own, says exactly for which payloads, does the same for the execution requests, and
  says which block hashes every segment finds when it opens.
- **The canonical chain in memory** (`ChainState`, `InMemoryState`, `ChainRun`, `SharedDrop`): two maps,
  parent-linked states and a pending block that stand for one chain through commits, reorgs, unwinds and
  trimming; whole runs beside the chain on disk; reads with writers in between; the iterative drop of
  shared parent chains under any interleaving.
- **The validator DKG runtime** (`DkgDigest`, `DkgPlanner`, `DkgQueue`, `DkgTransactions`, `DkgMachine`,
  `DkgPoolSteps`, `DkgTaskSteps`, `DkgReservations`, `DkgRuntime`): a heartbeat state machine over signer
  shares, queued tasks, proofs in flight, pool transactions and nonce reservations.
- **Legacy key reload and the Anti-MEV cache** (`KeyReload`, `AntiMevCache`): a fail-closed follower of the
  canonical notification stream, and a bounded, expiring, oldest-first cache.
- **Fork identifiers** (`ForkId`, `TimestampForks`, `HardforkOrder`): the fork id of EIP-6122 as the loops
  compute it, and the order of hardforks read from a genesis file.

`dafny verify dfyconfig.toml` checks the whole project.

## How the source is represented

- Hashes are collision-free. In the chain modules a block stands for its own hash; the fork checksum is the
  list of numbers folded into it; `DkgDigest` proves the byte encoding invertible, and whatever is said about
  the digest itself names a collision-free hash as its premise.
- What the signer holds is the settled round and keys of the keystore at the moment of installation, bound to
  a head. Which material they are good for is what the validation function says about those keys.
- All submissions of a heartbeat read account and fees in the state of one head, so a heartbeat has one
  `pricing` and each action its own answer whether it could be read.
- The ordinary block executor is a record with the gas counters, the receipts and the environment it runs
  under; everything it executes is written to one log, and that log is what the main theorem is about.
- Heights, nonces and gas are unbounded integers, except where the source checks for overflow: block heights
  in key reload, nonces, fees and replacement counters in DKG transactions, and the lengths in the digest.
- Every answer from outside (provider, pool, keystore, prover, clock) is an argument. A DKG heartbeat takes a
  `Heartbeat` record with one field for each read, so a run of the model is any sequence of such records.
- Sub-objects that the DKG runtime owns (queue, nonce builder, planner, the machine record) are values in
  fields that the methods reassign. The chain state, the big-block executor, the key reload task, the cache
  and the DKG runtime are classes.

What is assumed of the outside, and nowhere proved:

- Writers of the in-memory chain are serialised. The presence check and the write section of
  `remove_persisted_blocks_until` take their locks one after the other, so two concurrent writers could
  interleave there.
- Persistence reports name a block that is on disk and come between persistence tasks, never while a removal
  of disk blocks is under way.
- A keystore rebuilt from canonical material passes the validation against the same material, and opening
  or replaying an unfinished round does not touch the settled keys (`RebuildSound`, `Replay`).
- A DKG schedule has its checkpoints in order, and settled material has the lengths its types allow (`Fits`).
- Clearing the signer always succeeds, and a failed installation leaves it unchanged.

## What turned out differently

Some properties one would expect hold only under a condition. In each case the model states the exact one.

- An empty first segment hides the second one from the big-block executor: its boundary test runs only after
  a commit. The run is canonical if and only if the payload is `Regular` (one segment, or a non-empty first
  one); gas totals and receipts are right in any case (`ExecuteBigBlock`).
- The execution requests of a big block are not always those of its blocks. A new inner executor starts with
  the receipts of all earlier segments, so a rule that collects requests from receipts finds the earlier ones
  again. They agree for every rule that reads no receipts (`UnreadReceiptsDoNotMatter`), for a collecting rule
  if and only if no transaction before the last segment asks for anything (`CollectedOnceExactly`), and
  `CarriedReceiptsAreReadAgain` shows two blocks where they do not.
- A listed DKG transaction does not always hold a nonce reservation: pricing one task prunes every
  reservation the chain has passed. `HandleSubmit` states exactly when a submission leaves every listed
  task its reservation and `PassedNonceLosesReservation` shows one that does not. A complete heartbeat
  (`WorkHalf`, `TaskHalf`, `Reconcile`, `Drive`) that keeps its task work leaves every listed task reserved if
  and only if none is lost: touched before anything pruned, or pruned and not built again, and not released
  (`NoneLost`). The submissions and receipt checks this speaks of (`DueIn`), the releases (`ReleasedIn`) and
  whether task work is kept (`WorkStandsIn`) are functions of the state the heartbeat starts in and of what it
  reads. A heartbeat that ends early obeys the same law without the releases, or has touched nothing. All this
  is for heartbeats with enough nonces left below 2^64 for every reservation (`Roomy`); without that premise,
  listed tasks whose nonces the chain has not passed keep them. Every run keeps the weaker fact that a listed
  task without a reservation had its nonce passed.
- A head that moves at one submission leaves the tasks of all later actions of that heartbeat behind, in
  `Preparing` without a proof or in `Submitting` without a submission. `HandleActions` states exactly which
  (`MovedHeadStrandsNext` is an instance).
- A missing validator index and index `u64::MAX` have the same bytes in the digest. The installation marker
  also holds the index, so installation is still skipped exactly when the material is unchanged.
- A timestamp fork equal to the last block fork is swallowed by the fork id (`ForkIdGrows`,
  `EqualTimestampIsSwallowed`), and a terminal-difficulty fork with a block of its own but no block fork
  before it makes the fork id of every timestamp fork stop at that block (`TimestampForkId`).
- The Anti-MEV cache keeps within its capacity exactly when the capacity is at least one.

## Model

| member | source | states |
|---|---|---|
| BigBlockPlan.ContextForPayload | bin/reth-bb/src/evm_config.rs:269-287 | a plan exactly when every entry is understood, in which every segment starts where its transactions start in the flat list, under its own environment and context; otherwise the error of the first entry that is not, its environment before its context |
| BigBlockPlan.TxIteratorForPayload | bin/reth-bb/src/evm_config.rs:296-304 | the iterator is the concatenation of all segments' transactions |
| BigBlockPlan.SegmentIndexForTx | bin/reth-bb/src/evm.rs:79-81 | the search finds the one segment that holds the transaction, past the end the last one, and never underflows |
| BigBlockPlan.CollectBlocks | bin/reth-bb/src/main.rs:83-90 | all blocks in order, or the error of the first one that fails to convert |
| BigBlockPlan.MergeBlocks | bin/reth-bb/src/main.rs:92-116 | the merged block holds every transaction in order, the first parent, the last hash and the gas totals |
| BigBlockPlan.ConvertedTxs | bin/reth-bb/src/main.rs:108-112 | the merged transactions are those of the payload iterator |
| BigBlockPlan.SameTransactionEverywhere | bin/reth-bb/src/evm_config.rs:273-304 | index `i` names the same transaction in the plan, the iterator and the merged block, in one segment only |
| BigBlockPlan.BalStrictlyIncreases | bin/reth-bb/src/evm.rs:106-124 | the canonical run has two events more per segment than transactions and its BAL indexes rise strictly |
| BigBlockPlan.TxPosition | bin/reth-bb/src/evm.rs:115-124 | transaction `i` of segment `k` is the canonical event at position `i + 1 + 2k` and carries that index |
| BigBlockPlan.WorkerReadsExactlyEarlierEvents | bin/reth-bb/src/evm.rs:115-124 | strictly below the renumbered index lie exactly the events before the worker's transaction |
| BigBlockExecutor.BbBlockExecutor.Initialize | bin/reth-bb/src/evm.rs:222-270 | index 0 selects segment 0 for good; a worker's index is renumbered to its transaction's canonical position and segment; the block hashes of the selected segment's window are seeded |
| BigBlockExecutor.BbBlockExecutor.ApplyPreExecutionChanges | bin/reth-bb/src/evm.rs:410-418 | the first event is the pre-execution of segment 0 at index 0 |
| BigBlockExecutor.BbBlockExecutor.ApplySegmentBoundary | bin/reth-bb/src/evm.rs:288-386 | the log grows by the closing and the opening event at the next two indexes, requests and gas offsets are carried over, and the new segment finds the hashes of its window |
| BigBlockExecutor.BbBlockExecutor.CommitTransaction | bin/reth-bb/src/evm.rs:428-450 | one more transaction is accounted for and every boundary behind it is crossed |
| BigBlockExecutor.BbBlockExecutor.Finish | bin/reth-bb/src/evm.rs:452-500 | totals over all segments; the log is the canonical one if and only if the payload is regular, and what it is otherwise; requests of every segment in order, for an irregular payload those of its first environment under its last context |
| BigBlockExecutor.OpenSegmentHoldsNextTx | bin/reth-bb/src/evm.rs:428-450 | between commits the open segment is the one the search finds for the next transaction |
| BigBlockExecutor.ReceiptAt | bin/reth-bb/src/evm.rs:428-439 | receipt `i` holds the gas of transactions `0..=i` across all segments |
| BigBlockExecutor.ReceiptsAreShifted | bin/reth-bb/src/evm.rs:428-439 | a segment's receipts are those of its block run alone with the gas of all earlier segments added |
| BigBlockExecutor.UnreadReceiptsDoNotMatter | bin/reth-bb/src/evm.rs:338-369 | for rules that read no receipts the requests are those of the blocks run on their own |
| BigBlockExecutor.CollectedOnceExactly | bin/reth-bb/src/evm.rs:367-369 | for a rule that collects from receipts they are, if and only if no transaction before the last segment asks for anything |
| BigBlockExecutor.CarriedReceiptsAreReadAgain | bin/reth-bb/src/evm.rs:367-369 | two regular blocks whose requests come out as three |
| BigBlockExecutor.ExecuteBigBlock | crates/engine/tree/src/tree/payload_processor/bal/execute.rs:170-214 | with one index bump before each commit the log equals running each block alone exactly for regular payloads, and is the log stuck in segment 0 otherwise; receipts, gas and blob gas always right; requests in segment order, equal to those of the blocks run alone when the rule reads no receipts; the block hashes every segment opens with |
| BigBlockExecutor.ExecuteSequentially | crates/engine/tree/src/tree/payload_validator.rs:1277-1360 | the same for the driver that bumps after each step |
| BigBlockExecutor.EmptyFirstSegmentIsNotRegular | bin/reth-bb/src/evm.rs:440-450 | an empty first segment makes the log that the drivers return shorter than the canonical one |
| BlockHashes.HashesToSeed | bin/reth-bb/src/evm.rs:54-64 | the list to seed from holds exactly the prior hashes and the parent of every segment but the first, sorted by number |
| BlockHashes.HashesForBlock | bin/reth-bb/src/evm.rs:66-76 | exactly the listed hashes numbered in the 256 below a block, in their order |
| BlockHashes.Reseed | bin/reth-bb/src/evm.rs:282-286 | whatever the ring of 256 slots held, a lookup in the window then gives a known hash wherever one is known, and what was there before otherwise |
| BlockHashes.FinishedBlocksResolve | bin/reth-bb/src/evm.rs:373-377 | in every segment the blocks finished before it, the last one first of all, are found under the hashes that later segments name as their parents |
| SharedDrop.StepKeepsInv | crates/chain-state/src/in_memory.rs:725-738 | every step of any releaser keeps reference counts equal to the references there are |
| SharedDrop.RunKeepsInv | crates/chain-state/src/in_memory.rs:725-738 | so does every run of interleaved steps |
| SharedDrop.LiveIsHeld | crates/chain-state/src/in_memory.rs:725-738 | with no drain under way every allocated node is reachable from a handle |
| SharedDrop.DrainIsSafeAndComplete | crates/chain-state/src/in_memory.rs:725-738 | in every run no node is freed twice or while reachable, and at rest exactly the unreachable ones are freed |
| SharedDrop.DrainingIsBounded | crates/chain-state/src/in_memory.rs:727-737 | drain steps in any order: no more of them than there are references in drains and nodes allocated |
| SharedDrop.RestIsReached | crates/chain-state/src/in_memory.rs:727-737 | from every consistent heap drain steps lead to one with no drain under way |
| SharedDrop.DrainingFreesExactly | crates/chain-state/src/in_memory.rs:725-738 | from any point of any run the drains alone end within that bound, can always go on until then, and have then freed exactly what no handle reached at that point |
| SharedDrop.DropReference | crates/chain-state/src/in_memory.rs:727-737 | the loop has the effect of the recursive drop |
| SharedDrop.DrainMatchesRecursiveDrop | crates/chain-state/src/in_memory.rs:725-738 | at rest any interleaving has freed the nodes that recursive drops would have |
| ChainState.DrainAbove | crates/chain-state/src/in_memory.rs:351-356 | the drained blocks are the ones above the height, each once, in any order |
| ChainState.SortByNumber | crates/chain-state/src/in_memory.rs:358-359 | sorting distinct numbers gives the one rising order |
| ChainState.SortedDrainIsSuffix | crates/chain-state/src/in_memory.rs:351-359 | drained and sorted, a chain's blocks above a height are its suffix |
| ChainState.Anchor | crates/chain-state/src/in_memory.rs:603-609 | the loop returns the parent of the oldest state reached |
| ChainState.AnchorOfChain | crates/chain-state/src/in_memory.rs:603-609 | from any state of a chain that is the block just below the lowest one kept |
| ChainState.WalkOfChain | crates/chain-state/src/in_memory.rs:673-692 | the parent walk from the head is the chain, newest first |
| InMemoryState.CanonicalInMemoryState.Clear | crates/chain-state/src/in_memory.rs:155-167 | nothing is left, pending block included |
| InMemoryState.CanonicalInMemoryState.SetPendingBlock | crates/chain-state/src/in_memory.rs:249-257 | the pending block is linked to the state kept for its parent hash, or to none |
| InMemoryState.CanonicalInMemoryState.UpdateBlocks | crates/chain-state/src/in_memory.rs:263-299 | after removing the reorged blocks and inserting the new ones the maps stand for the kept part followed by the new blocks |
| InMemoryState.CanonicalInMemoryState.UpdateChain | crates/chain-state/src/in_memory.rs:302-311 | the same for a commit and for a reorg |
| InMemoryState.CanonicalInMemoryState.RemovePersistedBlocksUntil | crates/chain-state/src/in_memory.rs:323-380 | nothing changes unless the reported block is in memory; otherwise the chain above the lower height stays, linked afresh, pending block included |
| InMemoryState.Relink | crates/chain-state/src/in_memory.rs:358-370 | putting the blocks that stay back in order links each to its parent as in the chain they form |
| InMemoryState.CanonicalInMemoryState.StateByHash | crates/chain-state/src/in_memory.rs:107-109 | the state of a kept block with all its links, or nothing |
| InMemoryState.CanonicalInMemoryState.HashByNumber | crates/chain-state/src/in_memory.rs:118-120 | the chain's block of that number, exactly for the numbers kept |
| InMemoryState.CanonicalInMemoryState.StateByNumber | crates/chain-state/src/in_memory.rs:112-115 | the same with its state |
| InMemoryState.CanonicalInMemoryState.HeadState | crates/chain-state/src/in_memory.rs:123-126 | the greatest number leads to the state of the chain's last block |
| InMemoryState.CanonicalInMemoryState.CanonicalChain | crates/chain-state/src/in_memory.rs:540-546 | the walk from the head lists the chain newest first, every state with its own links |
| InMemoryState.ChainMapsAreCoherent | crates/chain-state/src/in_memory.rs:55-66 | the maps of a chain are inverse to each other over one range of numbers linked by parent hashes, and every state's parent is the entry one below, none at the lowest |
| InMemoryState.CoherentMapsAreAChain | crates/chain-state/src/in_memory.rs:55-66 | maps with those properties are the maps of a linked chain, which the lemma builds from them |
| ChainRun.SameBlockSamePast | crates/chain-state/src/in_memory.rs:330-337 | two chains with the same block at a height agree up to it |
| ChainRun.ReportFits | crates/chain-state/src/in_memory.rs:323-380 | trimming for a truthful report leaves everything it drops on disk |
| ChainRun.SwitchAbove | crates/engine/tree/src/tree/mod.rs:903-981 | a reorg whose fork point is in memory |
| ChainRun.SwitchBelow | crates/engine/tree/src/tree/mod.rs:903-981 | a reorg that also gives up persisted blocks |
| ChainRun.CollectAbove | crates/engine/tree/src/tree/mod.rs:1054-1082 | the blocks collected for an unwind are those in memory above the new head |
| ChainRun.PerformUnwind | crates/engine/tree/src/tree/mod.rs:1032-1112 | an unwind keeps every canonical block in memory or on disk, whether its new head is in memory or not |
| ChainRun.PerformReport | crates/engine/tree/src/tree/mod.rs:2341-2366 | so does a persistence report, also one for a block reorged out since |
| ChainRun.DiskStepSafe | crates/engine/tree/src/tree/mod.rs:2861-2902 | so do saving blocks and removing disk blocks above the last one shared with the canonical chain |
| ChainRun.Perform | crates/engine/tree/src/tree/mod.rs:903-1140 | every step keeps the split between memory and disk |
| ChainRun.Execute | crates/chain-state/src/in_memory.rs:263-380 | after any run every canonical block is in the map or on disk at its height |
| ChainRun.Run | crates/chain-state/src/in_memory.rs:208-227 | the same from startup, with everything on disk |
| ChainRun.EveryCanonicalBlockKept | crates/chain-state/src/in_memory.rs:323-380 | where each canonical block of a safe state is found |
| ChainRun.StateByNumberAcross | crates/chain-state/src/in_memory.rs:112-120 | with any writers between its two reads a lookup returns nothing or a state with the hash and number read, whose parent walk is linked and descends by one |
| ChainRun.CanonicalChainAcross | crates/chain-state/src/in_memory.rs:123-126 | the same for a chain walk, which starts at the head first read and stays within the later chain |
| DkgDigest.PrintSettled | bin/neox-rs/src/dkg_runtime.rs:168-221 | the buffer built field by field is the encoding |
| DkgDigest.PrintMany | bin/neox-rs/src/dkg_runtime.rs:182-189 | the loop writes the count and every length-prefixed item |
| DkgDigest.PrintEpoch | bin/neox-rs/src/dkg_runtime.rs:193-219 | the epoch part, commitments without a length |
| DkgDigest.ParseOfEncode | bin/neox-rs/src/dkg_runtime.rs:168-221 | parsing undoes printing up to the index `u64::MAX` |
| DkgDigest.RoundTripExactly | bin/neox-rs/src/dkg_runtime.rs:176 | it undoes it fully if and only if the index is not `u64::MAX` |
| DkgDigest.SameBytesExactly | bin/neox-rs/src/dkg_runtime.rs:168-221 | equal bytes mean equal material up to that index |
| DkgDigest.MissingIndexPrintsAsMax | bin/neox-rs/src/dkg_runtime.rs:176 | two different values with the same bytes |
| DkgDigest.SkippedExactlyWhenUnchanged | bin/neox-rs/src/dkg_runtime.rs:2010-2017 | installation is skipped if and only if the settled material is unchanged |
| DkgPlanner.TakeTasks | crates/neox/node/src/dkg_task.rs:72-159 | nothing is planned outside the window, every kind of task once in an epoch, always before its deadline and for the right sender; invalid inputs change nothing |
| DkgPlanner.PlanEpoch | crates/neox/node/src/dkg_task.rs:56-67 | over any heights of an epoch no kind of task is planned twice |
| DkgQueue.Enqueue | crates/neox/node/src/dkg_executor.rs:136-147 | queued tasks stay as they are, new ones go last and unprepared, the count is what was added |
| DkgQueue.Actions | crates/neox/node/src/dkg_executor.rs:162-230 | exactly the tasks past their deadline are dropped; every other task starts what it is ready for, one action each, within the preparation limit; submissions and receipt checks are those due to the live tasks, in queue order |
| DkgQueue.StartingKeepsCalldata | crates/neox/node/src/dkg_executor.rs:187-228 | starting actions neither replaces calldata nor makes any |
| DkgQueue.RecordPrepared | crates/neox/node/src/dkg_executor.rs:233-253 | a preparation result never replaces calldata that exists, adds or drops no task, and keeps the queue valid |
| DkgQueue.RecordSubmitted | crates/neox/node/src/dkg_executor.rs:256-280 | the same for a submission result: the calldata stays through success and failure |
| DkgQueue.RecordReceipt | crates/neox/node/src/dkg_executor.rs:283-310 | only a recorded success removes its task; calldata is never replaced |
| DkgQueue.RetireKeepsValid | crates/neox/node/src/dkg_executor.rs:323-329 | retiring a task keeps order and tasks in step |
| DkgTransactions.Build | crates/neox/node/src/dkg_transaction.rs:53-84 | the lowest nonce that neither another task nor the pool uses, kept on repetition; only passed reservations are dropped; nonces stay distinct; while nonces are left it fails only for want of a fee |
| DkgTransactions.Bump | crates/neox/node/src/dkg_transaction.rs:87-120 | the same nonce with both fees up by an eighth and covering the live price; an error and no reservation when the chain has passed it |
| DkgTransactions.BumpedFee | crates/neox/node/src/dkg_transaction.rs:178-196 | a replacement outbids the last attempt and covers twice the base fee and the tip |
| DkgTransactions.BuildThenBump | crates/neox/node/src/dkg_transaction.rs:53-120 | two attempts share their nonce unless the chain passed it in between |
| DkgDigest.MarkerNamesMaterial | bin/neox-rs/src/dkg_runtime.rs:104-108 | under a collision-free hash equal installation markers mean equal settled material |
| DkgMachine.MarkedSharesValidate | bin/neox-rs/src/dkg_runtime.rs:1523-1550 | under a collision-free hash, shares whose marker is that of some material hold keys that validate against it |
| DkgPoolSteps.BuildAndSubmit | bin/neox-rs/src/dkg_runtime.rs:1907-1946 | everything in the pool is listed, the list only grows, nonces stay distinct, what pricing does to every reservation, and listed tasks keep their reservations if and only if the chain has passed none of them |
| DkgPoolSteps.PassedNonceLosesReservation | crates/neox/node/src/dkg_transaction.rs:150-152 | a list and builder with every task reserved, and a submission after which a listed task has no reservation |
| DkgPoolSteps.TouchedListed | bin/neox-rs/src/dkg_runtime.rs:1907-1946 | pricing one task leaves every listed task reserved exactly when it finds no passed nonce among them |
| DkgReservations.TallyStep | bin/neox-rs/src/dkg_runtime.rs:1120-1155 | action by action, which of the reservations found at the start are still there |
| DkgReservations.KeptExactly | bin/neox-rs/src/dkg_runtime.rs:1120-1160 | over all actions of a heartbeat and its releases every listed task keeps a reservation if and only if none is lost |
| DkgReservations.ReservationsSince | bin/neox-rs/src/dkg_runtime.rs:678-1161 | what phases that keep or drop the whole of the task work leave due, staged and reserved carries over to the start of the heartbeat |
| DkgReservations.DueAfterPolling | bin/neox-rs/src/dkg_runtime.rs:1107-1119 | after planning and polling exactly that is due which the tasks queued before owe once finished proofs are taken in |
| DkgReservations.DueAfterRetiring | bin/neox-rs/src/dkg_runtime.rs:1285-1293 | retiring tasks first leaves due what the others owe |
| DkgReservations.HandledTouches | bin/neox-rs/src/dkg_runtime.rs:1120-1155 | the actions handled until a fence fails price exactly the tasks whose due submissions pass |
| DkgPoolSteps.ReleaseEach | bin/neox-rs/src/dkg_runtime.rs:1369-1381 | the released tasks lose their transactions and their nonces, all others keep both |
| DkgTaskSteps.RetireEach | bin/neox-rs/src/dkg_runtime.rs:1285-1293 | exactly the newly canonical tasks leave the queue, with their proofs; the others keep their order |
| DkgTaskSteps.PollEach | bin/neox-rs/src/dkg_runtime.rs:1390-1421 | every finished proof is recorded once, as ready only when it was made over the inputs in force |
| DkgTaskSteps.ReceiptFacts | crates/neox/node/src/dkg_executor.rs:283-310 | a receipt touches its own task only: gone on success, ready again otherwise |
| DkgTaskSteps.AfterStart | bin/neox-rs/src/dkg_runtime.rs:1118-1119 | starting the actions keeps the queue invariants; the tasks then waiting are those waiting before and those just started |
| DkgRuntime.Runtime.constructor | bin/neox-rs/src/dkg_runtime.rs:308-326 | a new machine satisfies every invariant |
| DkgRuntime.Runtime.Discard | bin/neox-rs/src/dkg_runtime.rs:1357-1367 | every listed transaction is asked to be removed and none is left in the pool |
| DkgRuntime.Runtime.ResetTaskWork | bin/neox-rs/src/dkg_runtime.rs:328-336 | queue, planner, proofs and reservations are emptied and nothing else |
| DkgRuntime.Runtime.ResetEpoch | bin/neox-rs/src/dkg_runtime.rs:350-364 | an epoch reset drops all task work and keeps marker and settled material |
| DkgRuntime.Runtime.Suspend | bin/neox-rs/src/dkg_runtime.rs:1317-1338 | all task work is dropped, shares and marker stay; the head is recorded only behind the fence |
| DkgRuntime.Runtime.Invalidate | bin/neox-rs/src/dkg_runtime.rs:1340-1355 | the signer is empty, the marker unset, and no work, transaction or reservation is left |
| DkgRuntime.Runtime.CommitReleases | bin/neox-rs/src/dkg_runtime.rs:1369-1381 | a released task gives up its transactions and its nonce together |
| DkgRuntime.Runtime.InstallSignerShares | bin/neox-rs/src/dkg_runtime.rs:64-96 | the signer gets the settled round and keys the store holds at that moment, bound to the head, or stays as it is |
| DkgRuntime.Runtime.ReconcileSettled | bin/neox-rs/src/dkg_runtime.rs:1523-1598 | success leaves the marker of the material read and, under a collision-free hash, keys in the signer that validate against it; new shares are the store's and are installed only behind the fence; a failed rebuild leaves the signer empty |
| DkgRuntime.Runtime.Begin | bin/neox-rs/src/dkg_runtime.rs:694-731 | a reorg notice or a discontinuity, and only these, clear signer and marker |
| DkgRuntime.Runtime.SettledPhase | bin/neox-rs/src/dkg_runtime.rs:732-762 | the marker is that of the settled material read and the signer's keys validate against it; task work is dropped if and only if the material changed |
| DkgRuntime.Runtime.EpochPhase | bin/neox-rs/src/dkg_runtime.rs:766-832 | suspends exactly when the active round cannot be read; otherwise task work is dropped if and only if the branch, the place, the epoch or the members planned for changed |
| DkgRuntime.Runtime.PendingPhase | bin/neox-rs/src/dkg_runtime.rs:868-886 | task work is dropped if and only if the place or the pending validators changed |
| DkgRuntime.Runtime.Replay | bin/neox-rs/src/dkg_runtime.rs:888-942 | when exactly it succeeds; success leaves an open round over unchanged settled keys and drops task work if and only if accepted material is gone |
| DkgRuntime.Runtime.ReplayRecovery | bin/neox-rs/src/dkg_runtime.rs:943-973 | the same for recovery messages |
| DkgRuntime.Runtime.RoundPhase | bin/neox-rs/src/dkg_runtime.rs:834-1029 | inside the window a round is open, outside nothing is queued; when exactly it suspends inside and when it drops task work |
| DkgRuntime.Runtime.ReconcileCanonical | bin/neox-rs/src/dkg_runtime.rs:1267-1294 | no queued task is canonical afterwards; a contribution no longer canonical, and only that, drops all work; otherwise the newly canonical tasks leave and are staged for release |
| DkgRuntime.Runtime.InputsPhase | bin/neox-rs/src/dkg_runtime.rs:1042-1105 | the inputs in force are those read at this head; when exactly it suspends and when it drops task work; otherwise only newly canonical tasks leave |
| DkgRuntime.Runtime.PlanPhase | bin/neox-rs/src/dkg_runtime.rs:1107-1113 | newly queued tasks are unprepared, in time, behind the others and not canonical; queued ones untouched |
| DkgRuntime.Runtime.Poll | bin/neox-rs/src/dkg_runtime.rs:1383-1422 | a proof is accepted exactly when it was made over the inputs read at this head |
| DkgRuntime.Runtime.StartPreparation | bin/neox-rs/src/dkg_runtime.rs:1424-1467 | one proof in flight over the inputs in force, or its task unprepared again |
| DkgRuntime.Runtime.HandleSubmit | bin/neox-rs/src/dkg_runtime.rs:1791-1823 | its task is submitted with a hash that is in the pool, or ready again; a failed fence restores it and ends the heartbeat; exactly when every listed task keeps its reservation |
| DkgRuntime.Runtime.HandleReceipt | bin/neox-rs/src/dkg_runtime.rs:1824-1840 | a confirmed task leaves the queue and is staged for release, any other is sent again |
| DkgRuntime.Runtime.StartActions | bin/neox-rs/src/dkg_runtime.rs:1118-1119 | expired tasks lose their proofs and are staged for release; at most one preparation starts, none while one is in flight; submissions and receipt checks are those due, in queue order |
| DkgRuntime.Runtime.HandleActions | bin/neox-rs/src/dkg_runtime.rs:1120-1155 | exactly which tasks are left waiting when the head moves at some action, and when that happens; what became of every reservation and which tasks are staged for release |
| DkgRuntime.Runtime.MovedHeadStrandsNext | bin/neox-rs/src/dkg_runtime.rs:1791-1802 | a head found moved strands one of any two tasks ready to submit |
| DkgRuntime.Runtime.Finish | bin/neox-rs/src/dkg_runtime.rs:1157-1160 | releases are carried out only behind the last fence |
| DkgRuntime.Runtime.TaskHalf | bin/neox-rs/src/dkg_runtime.rs:764-1160 | behind the settled material nothing touches signer or marker; when exactly task work is kept; tasks give up transactions and nonces only together; listed tasks stay reserved unless lost in the actions due at the start |
| DkgRuntime.Runtime.WorkHalf | bin/neox-rs/src/dkg_runtime.rs:1107-1160 | a complete heartbeat leaves no new task waiting; tasks give up transactions and nonces only together; every listed task ends reserved if and only if none is lost in the actions due to the tasks found queued, expired, confirmed and staged ones aside |
| DkgRuntime.Runtime.Act | bin/neox-rs/src/dkg_runtime.rs:1118-1160 | the same behind planning and polling |
| DkgRuntime.Runtime.PlanAndPoll | bin/neox-rs/src/dkg_runtime.rs:1107-1117 | what is due and what has expired is as it was, finished proofs taken in |
| DkgRuntime.Runtime.Footing | bin/neox-rs/src/dkg_runtime.rs:764-1105 | the task work of earlier heartbeats is kept if and only if everything it was built on can be read and has not changed |
| DkgRuntime.Runtime.Reconcile | bin/neox-rs/src/dkg_runtime.rs:678-1161 | every invariant on every exit; a complete heartbeat leaves the marker of the material read at its head and keys in the signer that validate against it, and keeps task work if and only if all it was built on stands; then the transaction list only grows or is released together with its nonces, and listed tasks stay reserved exactly unless lost; all in terms of the starting state and what was read |
| DkgRuntime.Runtime.Drive | bin/neox-rs/src/dkg_runtime.rs:631-669 | a failure other than a moved head empties the signer and drops all work; otherwise the reservations and the kept work are as for one heartbeat |
| DkgRuntime.Runtime.Initialize | bin/neox-rs/src/dkg_runtime.rs:426-570 | until the first complete heartbeat the signer stays empty between attempts |
| DkgRuntime.Runtime.Run | bin/neox-rs/src/dkg_runtime.rs:396-676 | every invariant over every run; the end of the stream leaves an empty signer, no marker, no work and no transaction |
| KeyReload.NextCanonicalHead | bin/neox-rs/src/main.rs:587-611 | success exactly for non-empty hash-linked blocks at consecutive heights, with their tip; otherwise the error of the first block that breaks the path |
| KeyReload.StandaloneSegmentTip | bin/neox-rs/src/main.rs:613-622 | success exactly for segments linked in themselves that do not start at genesis |
| KeyReload.CheckInTurn | bin/neox-rs/src/main.rs:587-611 | checking two non-empty segments in turn gives the result of checking them as one, errors included |
| KeyReload.EnsureCanonicalMapping | bin/neox-rs/src/main.rs:510-523 | true exactly when the mapping has every head at its height |
| KeyReload.KeyReloadTask.ReloadAtHead | bin/neox-rs/src/main.rs:540-554 | shares are installed for the head between two checks of the whole fence, and which error means what |
| KeyReload.KeyReloadTask.Startup | bin/neox-rs/src/main.rs:710-736 | the signer holds shares for the snapshot, or nothing |
| KeyReload.KeyReloadTask.FollowCommit | bin/neox-rs/src/main.rs:631-689 | the reload goes on exactly for linked, canonical commits, applies each block once, and holds shares for the new head or nothing |
| KeyReload.KeyReloadTask.Reconcile | bin/neox-rs/src/main.rs:741-799 | buffered commits up to the snapshot are only checked, later ones applied; when exactly the reload stops |
| KeyReload.KeyReloadTask.Handle | bin/neox-rs/src/main.rs:803-876 | the same for the main loop, with a retry only while one is due |
| KeyReload.KeyReloadTask.Run | bin/neox-rs/src/main.rs:691-877 | in every run the last head is reached from the snapshot by linked blocks at consecutive heights, each applied once and in order; shares are bound to it and no retry is due, or there are none; once disabled there are none |
| AntiMevCache.Cache.Insert | bin/neox-rs/src/main.rs:956-969 | expired entries go first, then at most one entry that none is older than, then the new one is there |
| AntiMevCache.Cache.Get | bin/neox-rs/src/main.rs:971-976 | the unexpired entry, if any |
| AntiMevCache.Cache.Remove | bin/neox-rs/src/main.rs:978-980 | that key and no other is gone |
| AntiMevCache.FindOldest | bin/neox-rs/src/main.rs:962-963 | an entry that none is older than, whenever there is one |
| AntiMevCache.Replay | bin/neox-rs/src/main.rs:951-981 | the cache goes through a history on any operations |
| AntiMevCache.NeverOverCapacity | bin/neox-rs/src/main.rs:961-966 | in every history the size stays within the capacity, or one |
| AntiMevCache.CapacityKeptExactlyFromOne | bin/neox-rs/src/main.rs:961-968 | after an insert the capacity is kept if and only if it is at least one |
| AntiMevCache.EntriesAreLatest | bin/neox-rs/src/main.rs:951-981 | whatever is cached is the latest value of its key, not removed since |
| AntiMevCache.GetAnswersLatest | bin/neox-rs/src/main.rs:971-976 | an answer is the latest unexpired, unremoved value |
| AntiMevCache.LostOnlyWhenFull | bin/neox-rs/src/main.rs:956-969 | an unexpired, unremoved value is gone only because an insert found the cache full and nothing in it older |
| ForkId.ComputeForkId | crates/chainspec/src/spec.rs:652-705 | the two loops hash the reached forks without repeats and announce the first one not reached |
| ForkId.ForkIdGrows | crates/chainspec/src/spec.rs:652-705 | as the head advances the hashed list only grows; the announced fork comes first exactly when it differs from the last one hashed |
| ForkId.ForkIdsAgreeOverTime | crates/chainspec/src/spec.rs:652-705 | for fork lists in any order without a timestamp equal to a block fork: a prefix, with the announced fork first once reached, and equal ids before |
| ForkId.EqualTimestampIsSwallowed | crates/chainspec/src/spec.rs:688-694 | the premise is needed |
| ForkId.LastBlockForkBeforeMergeOrTimestamp | crates/chainspec/src/spec.rs:746-770 | the walk returns the first boundary |
| ForkId.HardforkForkId | crates/chainspec/src/spec.rs:595-602 | the fork id at the head that satisfies the condition, none for a fork that never comes |
| TimestampForks.BoundaryOfSchedule | crates/chainspec/src/spec.rs:746-770 | with a block fork in front the walk finds the last fork height, without one nothing |
| TimestampForks.TimestampForkId | crates/chainspec/src/spec.rs:712-733 | the fork id of a timestamp fork lists all distinct nonzero heights and the distinct due timestamps and announces the first later one, exactly under the stated condition |
| TimestampForks.MergeFirstAnnouncesPassedBlock | crates/chainspec/src/spec.rs:746-770 | a schedule outside that condition |
| HardforkOrder.Position | crates/chainspec/src/spec.rs:908 | the first fork of that name, if any |
| HardforkOrder.OrderHardforks | crates/chainspec/src/spec.rs:901-914 | a stable permutation: known forks in mainnet order, unknown ones after them in their own order |

## Left out

- Big blocks: 64-bit wrap-around of gas sums, and hashes the database itself puts into the ring; the request rule of the ordinary executor is a parameter.
- Effects of transactions and system calls on state, receipts' contents, tries, signatures, proofs and keystore encryption.
- Chain state: metrics, head trackers, broadcast channels, lookups of transactions along a chain; the sealed blocks' contents.
- The locks of the in-memory state as such: writers are single steps, and only the two-step reads are interleaved with them.
- Engine tree: how new heads are found and when persistence is started; the model takes any fork point, any saved blocks that link to the disk, and any on-disk block as report.
- DKG runtime: validation of settled keys, reading of contract storage into task sets and inputs, material generation and proving, and persistence of the live store; each is an answer of the `Heartbeat` record.
- DKG runtime: waiting, timers, the source of the reorg flag, metrics and logging; the flag is an arbitrary part of each heartbeat.
- DkgReservations.KeptExactly: for heartbeats with a nonce below 2^64 left for every reservation they could make (`Roomy`); where nonces run out a pruned task may fail to be built again.
- Key reload: reading and verifying key files, which is one answer per reload.
- Anti-MEV cache: validation of submissions and the RPC layer.
- Chain specs: static networks, builder variants, genesis header fields, fork filters.

# A verified model of the evidence chain and its analyses

This project models, in Dafny, the parts of an artificial-language-dynamics laboratory that its evidence
stands on, and proves what they promise:

- **Merkle trees** (`Merkle`, `MerkleProofs`, `MerkleConsistency`, `MerkleTree`): roots, audit paths and
  consistency proofs after sections 2.1 to 2.1.2 of RFC 6962, over a symbolic injective hash. The verifiers
  accept exactly the tree's own proofs.
- **Checkpoints** (`Checkpoints`, `CheckpointLedger`, `ProofFiles`, `CheckpointService`): each checkpoint commits one tree per
  stream and re-checks what the previous one committed. Tamper evidence for the whole chain on stores that may be
  rewritten at will; totality of proofs and of the proof writer on append-only stores.
- **Scheduling** (`Scheduler`, `Cadence`, `ScheduledCheckpoints`): a counter, a time stamp and a chain of
  attempts. Conservation of events over every run, exact loss condition, tight waiting times, and, with the
  checkpoint service as what the attempts do, what the last checkpoint can be missing.
- **Anchoring** (`AnchorChain`, `AnchorVerify`, `AnchorProtocol`, `AnchorPublisher`, `AnchorRuns`,
  `FinalityPolicy`): one chain transaction and one append-only receipt row per checkpoint, across RPC failures,
  drops, reverts and crash-restarts between operations. `AnchorPublisher` holds the objects; each of their
  methods is proved to do what the functions of `AnchorProtocol` say, and `AnchorRuns` proves the safety theorems
  over all runs of those functions.
- **Concurrent anchoring** (`PinnedTransport`): every interleaving, one await at a time, of submissions, retries,
  confirmations and signings over the transport that signs once per submission.
- **Analyses**: edit distances (`EditDistance`, `MessageDistance`, `ToneDistance`), stroke rasterisation
  (`Canvas`), Holm's correction (`Ranking`, `Holm`), mid-ranks and the Mann-Whitney statistic (`Ranks`), the
  reserve search (`Reserves`), within-stratum permutation tables (`PermutationNull`), paired-slot reconciliation
  (`Reconciliation`, `ReconciledOutcome`, `E03Full`), and a byte-level JSON literal scanner (`LiteralScanner`).

`Wrappers` holds `Option` and `Result`, the form in which thrown errors appear. Objects whose methods update their
fields are classes, loops that update variables are methods with loops, and expressions are functions.
`dafny verify dfyconfig.toml` checks the whole project.

Where the code and its own documentation disagree, the model follows the code:

- The scheduler's documentation bounds a wait by 1.25 times the time interval at the default tick. The bound that
  holds is `timeInterval + tick - 1`, so the documented one holds exactly from 3996 ms on,
  or when every event triggers at once (`Cadence.DefaultCadence`); the tick is never below 1000 ms.
- The literal scanner is documented to return a top-level value. It searches for the quoted key as text, so an
  earlier occurrence, nested or not, answers instead (`LiteralScanner.NestedKeyAnswersFirst`); the exact condition
  is `LiteralScanner.KeyedValueIffFirst`.
- A trigger empties the event counter before it reads the clock. If the reading does not parse, those events are
  never retried (`Scheduler.LossIsExact`).
- The publisher's reservation map is documented to make submission idempotent under every configuration. Across a
  restart it is so exactly with a sidecar (`AnchorRuns.SidecarIsNecessaryAndSufficient`), and for overlapping
  operations exactly when inherited pending entries already have their row
  (`PinnedTransport.OneHashIffCoherent`).

## Model

| member | source | states |
|---|---|---|
| `Merkle.SplitPointIsLargest` | packages/merkle/src/tree.ts:45-47 | the split is the largest power of two strictly below the size, and the only one with w < size <= 2w |
| `Merkle.RootInjective` | packages/merkle/src/tree.ts:58-90 | two leaf lists of one length with the same root are the same list, over an injective node hash |
| `MerkleTree.Tree.constructor` | packages/merkle/src/tree.ts:213-226 | a new tree holds the given leaves and a sound (empty) cache |
| `MerkleTree.Tree.Append` | packages/merkle/src/tree.ts:228-232 | appending keeps every remembered range root correct and returns the new index |
| `MerkleTree.Tree.RangeRoot` | packages/merkle/src/tree.ts:58-90 | the memoised root of a range is the recursive root of those leaves, whatever was remembered before |
| `MerkleTree.Tree.RootAt` | packages/merkle/src/tree.ts:258-265 | the root of any earlier size, and an error outside 0..size |
| `MerkleTree.Tree.InclusionProof` | packages/merkle/src/tree.ts:117-149 | the loop that walks down to a leaf emits the recursive audit path, leaf upwards; out of range is an error |
| `MerkleTree.Tree.SubProofInto` | packages/merkle/src/tree.ts:152-184 | pushing siblings while recursing appends exactly SUBPROOF of the range |
| `MerkleTree.Tree.ConsistencyProof` | packages/merkle/src/tree.ts:187-205 | the consistency proof from every size 0..n, with the empty proof at the two ends; an error outside |
| `MerkleTree.VerifyInclusion` | packages/merkle/src/verify.ts:89-130 | the verifier loop accepts exactly the inputs of the declarative acceptance predicate |
| `MerkleTree.VerifyConsistency` | packages/merkle/src/verify.ts:142-206 | the verifier loop with its two running hashes accepts exactly the declarative acceptance predicate |
| `MerkleTree.SkipRightEdge` | packages/merkle/src/verify.ts:114-119 | halving an even right-edge index ends at its odd part |
| `MerkleProofs.WalkReachesRoot` | packages/merkle/src/verify.ts:103-129 | at any level, a climb ends in the tree root exactly when it starts from the node of the tree with the path of its siblings: a wrong start or any wrong, missing or extra sibling is rejected |
| `MerkleProofs.AuditPathIsLevelPath` | packages/merkle/src/tree.ts:117-149 | the top-down audit path equals the bottom-up list of siblings the verifier expects |
| `MerkleProofs.LevelPathLength` | packages/merkle/src/verify.ts:76-78 | no path is longer than the bit length of the last index, so the length limit rejects no genuine proof |
| `MerkleProofs.InclusionVerifierIsExact` | packages/merkle/src/verify.ts:89-130 | against a true root, a leaf and path are accepted if and only if the leaf is the one at that index and the path is the tree's own audit path |
| `MerkleProofs.FromWalkReachesFromRoot` | packages/merkle/src/verify.ts:170-206 | the second running hash of the consistency walk reconstructs the earlier root |
| `MerkleConsistency.ConsistencyPathIsExpected` | packages/merkle/src/tree.ts:152-205 | SUBPROOF of RFC 6962 section 2.1.2 is the seed node followed by the siblings the verifier expects |
| `MerkleConsistency.ConsistencyVerifierIsExact` | packages/merkle/src/verify.ts:142-206 | against a true later root, an earlier root and path are accepted if and only if the root is that of the actual prefix and the path is the tree's own proof, for all sizes including equal and empty |
| `Checkpoints.PrefixCheckIsExact` | packages/checkpoint/src/trees.ts:182-205 | the re-check of a committed tree against the store succeeds exactly when the committed events are a prefix of the stored ones |
| `Checkpoints.BuiltManifestCommitsStore` | packages/checkpoint/src/checkpoint-service.ts:205-263 | a manifest's reference for every stream, mandatory or auxiliary, present or omitted, is the tree of that stream |
| `Checkpoints.BuiltManifestRecords` | packages/checkpoint/src/checkpoint-service.ts:229-258 | a built manifest carries the next number, the hash of the manifest before it, the two hashes of the run, the time and the reason, and for every stream its size, its root and the entry hash of its last event |
| `Checkpoints.LeavesDetermineEvents` | packages/checkpoint/src/trees.ts:95-111 | leaf hashes determine the events they were made of |
| `Checkpoints.SuccessCoversLast` | packages/checkpoint/src/checkpoint-service.ts:205-263 | an attempt that succeeds over a store proves the previous checkpoint's events a prefix of that store in every stream |
| `Checkpoints.ChainCovers` | packages/checkpoint/src/checkpoint-service.ts:205-263 | over any sequence of attempts on arbitrarily rewritten stores, each checkpoint covers all earlier ones |
| `Checkpoints.TamperEvidence` | packages/checkpoint/src/trees.ts:182-205 | if an attempt succeeds, the events of every earlier checkpoint of the chain are still a prefix of the store, for every stream |
| `Checkpoints.RewriteBlocksCheckpoints` | packages/checkpoint/src/checkpoint-service.ts:205-263 | once a committed event is changed or removed, every further attempt fails with an integrity error, whatever its reason |
| `CheckpointLedger.AttemptSucceeds` | packages/checkpoint/src/checkpoint-service.ts:205-263 | on an append-only store no attempt fails, and a manifest is written exactly for the first checkpoint, a lifecycle reason, or strict growth of some stream |
| `CheckpointLedger.RunIsSound` | packages/checkpoint/src/checkpoint-service.ts:205-263 | every run of appends and attempts yields contiguous, hash-linked manifests that cover one another, interval ones only on growth |
| `CheckpointLedger.SoundIsHealthy` | packages/checkpoint/src/checkpoint-service.ts:283-393 | after such a run every checkpoint still describes a prefix of the store and sizes never fall |
| `CheckpointLedger.InclusionProofsExist` | packages/checkpoint/src/checkpoint-service.ts:283-331 | an inclusion proof is answered exactly for stored checkpoints and sequences 1..size, names the stored entry, and the independent verifier accepts it against the committed root |
| `CheckpointLedger.ConsistencyProofsExist` | packages/checkpoint/src/checkpoint-service.ts:333-393 | a consistency proof is answered exactly for ordered pairs of stored checkpoints, and the independent verifier accepts it against the two committed roots |
| `CheckpointLedger.InclusionNamesCommitted` | packages/checkpoint/src/checkpoint-service.ts:283-331 | over any store, rewritten at will since its checkpoints were made, an inclusion proof is answered if and only if the sequence is in range and the store still serves exactly the committed events, and then it is the proof of what was committed; a store that serves anything else is an integrity error |
| `CheckpointLedger.ConsistencyNamesCommitted` | packages/checkpoint/src/checkpoint-service.ts:333-393 | the same between two checkpoints: answered if and only if the store still serves what the later one committed, and then it is the proof between the two committed trees |
| `CheckpointLedger.UnknownCheckpointsAreRefused` | packages/checkpoint/src/checkpoint-service.ts:283-393 | a checkpoint that was never made is not found, and a backwards pair is out of range before that |
| `CheckpointLedger.InRangeKeeps` | packages/checkpoint/src/checkpoint-service.ts:498-516 | reading a range keeps exactly the events with those sequences, as often as they are stored |
| `CheckpointService.AssertContiguousPrefix` | packages/checkpoint/src/trees.ts:81-93 | the scan finds a stream numbered 1..n without gaps, and nothing else |
| `CheckpointService.AssertSnapshots` | packages/checkpoint/src/trees.ts:95-117 | every stream of the store is contiguous |
| `CheckpointService.AssertPrefixUnchanged` | packages/checkpoint/src/trees.ts:182-205 | the loop over streams succeeds exactly when every committed tree is an unchanged prefix |
| `CheckpointService.AuxiliaryTreesFrom` | packages/checkpoint/src/trees.ts:137-148 | the record filled in the loop holds the non-empty auxiliary streams and no others |
| `CheckpointService.AssertManifestTrees` | packages/checkpoint/src/trees.ts:213-251 | the audit succeeds exactly when every reference of the manifest matches the store |
| `CheckpointService.AuditIsExact` | packages/checkpoint/src/trees.ts:213-251 | the audit passes exactly when size, root and last entry hash of every stream match the store and exactly the non-empty auxiliary streams are listed |
| `CheckpointService.BuiltManifestPassesAudit` | packages/checkpoint/src/trees.ts:213-251 | a manifest built from a store passes the audit of that store |
| `CheckpointService.EvidenceCheckpointService.CreateCheckpointIfChanged` | packages/checkpoint/src/checkpoint-service.ts:205-263 | the answer is the specified one, and the store gains exactly the new manifest when one is created and nothing otherwise; a created manifest records the run and every stream, and without one the last manifest is the answer and no stream has grown |
| `CheckpointService.EvidenceCheckpointService.Prefix` | packages/checkpoint/src/checkpoint-service.ts:498-516 | reading a committed prefix returns exactly that many events or an integrity error |
| `CheckpointService.EvidenceCheckpointService.InclusionProof` | packages/checkpoint/src/checkpoint-service.ts:283-331 | the method answers every request as the specified inclusion answer, errors included |
| `CheckpointService.EvidenceCheckpointService.ConsistencyProof` | packages/checkpoint/src/checkpoint-service.ts:333-393 | the method answers every request as the specified consistency answer, errors included |
| `CheckpointService.EvidenceCheckpointService.WriteInclusionsAt` | packages/checkpoint/src/checkpoint-service.ts:433-457 | one checkpoint of one stream: on success the files added are exactly the proofs of every sequence of a small tree and of the first and last of a larger one, as many as are counted |
| `CheckpointService.EvidenceCheckpointService.WriteInclusions` | packages/checkpoint/src/checkpoint-service.ts:433-457 | all checkpoints of one stream: exactly the inclusion proofs each of them is owed, and on a healthy store as many new files as are counted |
| `CheckpointService.EvidenceCheckpointService.WriteConsistencies` | packages/checkpoint/src/checkpoint-service.ts:459-482 | exactly the files of the pairs in which the tree grew; pairs of equal size are skipped, and the count is that of the files |
| `CheckpointService.EvidenceCheckpointService.WriteProofFiles` | packages/checkpoint/src/checkpoint-service.ts:395-486 | on success the disk holds, per checkpoint and stream, the inclusion proof of each of 1..size while size is within the limit, else of 1 and size; per stream the consistency proofs between neighbours, and between the ends of three or more, wherever the tree grew; and nothing else. On a healthy store it completes exactly when there is a checkpoint and the limit is at least 2, and the counts are those of the files |
| `ProofFiles.SequencesAreSelected` | packages/checkpoint/src/checkpoint-service.ts:535-544 | the sequences selected are those from 1 to the size, if the tree is small or they are the first or the last, once each |
| `ProofFiles.PairsAreNeighbours` | packages/checkpoint/src/checkpoint-service.ts:418-428 | the pairs selected are the neighbours, and the two ends of three or more |
| `ProofFiles.HealthyInclusions` | packages/checkpoint/src/checkpoint-service.ts:433-457 | on a healthy store the names owed to a checkpoint are those of its own selected sequences |
| `ProofFiles.HealthyConsistencies` | packages/checkpoint/src/checkpoint-service.ts:459-482 | on a healthy store they are those of the neighbours, or of the two ends, between which the tree strictly grew |
| `ProofFiles.SelectedSequencesAreProvable` | packages/checkpoint/src/checkpoint-service.ts:535-544 | every sequence the writer selects is in range |
| `ProofFiles.PairsAreProvable` | packages/checkpoint/src/checkpoint-service.ts:395-486 | every pair the writer selects is ordered and stored |
| `CheckpointService.RunsLeaveHealthyStores` | packages/checkpoint/src/checkpoint-service.ts:205-263 | every run of appends and attempts leaves a healthy store: each checkpoint describes a prefix of it, and sizes never fall |
| `Scheduler.CheckpointScheduler.constructor` | packages/checkpoint/src/scheduler.ts:111-129 | a new scheduler counts nothing and is not running |
| `Scheduler.CheckpointScheduler.RecordAcceptedEvents` | packages/checkpoint/src/scheduler.ts:159-169 | the counter rises below the interval; reaching it empties the counter, stamps the time and queues one window of all of them; the call throws exactly on a negative count or a trigger whose clock does not read |
| `Scheduler.CheckpointScheduler.Tick` | packages/checkpoint/src/scheduler.ts:177-186 | a tick changes nothing unless events wait and the time interval has passed; then it empties the counter, stamps the time and queues one window |
| `Scheduler.CheckpointScheduler.Trigger` | packages/checkpoint/src/scheduler.ts:223-231 | the counter is emptied before the clock is read; a readable clock queues exactly the consumed window |
| `Scheduler.CheckpointScheduler.StartAttempt` | packages/checkpoint/src/scheduler.ts:232-255 | the chain hands the oldest window to the one running attempt |
| `Scheduler.CheckpointScheduler.FinishAttempt` | packages/checkpoint/src/scheduler.ts:232-265 | a failure puts the window back, keeps the time stamp and is reported; a success stamps the time and keeps the counter, and a throwing observer changes no state |
| `Scheduler.NextKeepsSound` | packages/checkpoint/src/scheduler.ts:159-265 | each step keeps every recorded event in exactly one place and the attempts in trigger order |
| `Scheduler.RunIsSound` | packages/checkpoint/src/scheduler.ts:159-265 | conservation and order over every run, whatever fails, throws or does not parse |
| `Scheduler.Conservation` | packages/checkpoint/src/scheduler.ts:159-255 | with a readable clock nothing is lost: recorded = pending + queued or running + succeeded |
| `ScheduledCheckpoints.AnswerCommitsAll` | packages/checkpoint/src/checkpoint-service.ts:205-263 | an attempt that answers leaves a last checkpoint whose tree sizes sum to the events of the store it read, whether a manifest was written or none was needed |
| `ScheduledCheckpoints.AttemptCommits` | packages/checkpoint/src/checkpoint-service.ts:205-263 | an attempt of any reason that the scheduler runs over an earlier reading of a growing store succeeds, commits all of that reading, and leaves a sound ledger over the store as it has become |
| `ScheduledCheckpoints.RunInv` | packages/checkpoint/src/scheduler.ts:159-265 | the joint invariant of scheduler and checkpoint ledger over every run of appends, reports, ticks and attempts, with attempts cut short before or after their manifest is stored |
| `ScheduledCheckpoints.UncommittedIsCounted` | packages/checkpoint/src/scheduler.ts:159-255 | over every such run, recorded events that the last checkpoint does not commit are at most those pending, queued or running, plus what an unreadable clock lost |
| `ScheduledCheckpoints.ReportedEventIsCommitted` | packages/checkpoint/src/scheduler.ts:159-255 | a concrete run after which the one event reported is committed, and nothing waits |
| `Scheduler.LossIsExact` | packages/checkpoint/src/scheduler.ts:223-231 | recorded events are all accounted for if and only if no trigger of the run fires on a clock reading that does not parse |
| `Scheduler.UnreadableClockLosesEvents` | packages/checkpoint/src/scheduler.ts:223-231 | a concrete run that loses a whole interval of events |
| `Scheduler.StampIsLatest` | packages/checkpoint/src/scheduler.ts:223-265 | in every run, time is counted from the latest trigger or the latest completed success, whichever came last |
| `Scheduler.TicksAreSpaced` | packages/checkpoint/src/scheduler.ts:177-186 | after any run, a tick triggers exactly when events wait and a whole interval has passed since then |
| `Cadence.WaitsAreBounded` | packages/checkpoint/src/scheduler.ts:177-186 | over every timed run with a running timer, no event waits longer than timeInterval + tick - 1 |
| `Cadence.WaitBoundIsReached` | packages/checkpoint/src/scheduler.ts:177-186 | the bound is tight: a run in which an event waits exactly that long |
| `Cadence.DefaultCadence` | packages/checkpoint/src/scheduler.ts:28-41 | the documented 1.25 x timeInterval cadence holds of all runs at the default tick if and only if every event triggers at once (eventInterval 1) or timeInterval is at least 3996 ms |
| `AnchorChain.FakeChainTransport.constructor` | packages/anchor/src/fake-transport.ts:70-80 | a new chain has sent and included nothing |
| `AnchorChain.FakeChainTransport.SendAnchorTransaction` | packages/anchor/src/fake-transport.ts:167-204 | a send is dropped while drops are owed, which uses one up, or refused for a malformed digest; else it takes the next nonce, is listed as sent and joins the pending list |
| `AnchorChain.FakeChainTransport.MineBlock` | packages/anchor/src/fake-transport.ts:137-165 | everything that was pending is in the next block, in order, the first of them taking up the injected reverts and the others successful; earlier inclusions are untouched, the pending list is empty and the head rises by the count |
| `AnchorChain.FakeChainTransport.IncludeInBlock` | packages/anchor/src/fake-transport.ts:137-165 | the transaction and its receipt name the block at the head; it is reverted exactly when a revert is owed |
| `AnchorChain.FakeChainTransport.GetTransactionReceipt` | packages/anchor/src/fake-transport.ts:206-211 | on a sound chain a receipt comes back if and only if the transaction is in a block; it names a block no higher than the head, the one the transaction itself names |
| `AnchorChain.FakeChainTransport.GetTransaction` | packages/anchor/src/fake-transport.ts:218-224 | on a sound chain the answer carries the hash asked for, everything sent is found as it was sent, and it is in a block exactly when it has a receipt |
| `AnchorChain.MineKeeps` | packages/anchor/src/fake-transport.ts:137-165 | mining keeps the chain consistent, with every transaction either pending or in a block, changes no inclusion already made and adds exactly count blocks |
| `AnchorChain.MineMeans` | packages/anchor/src/fake-transport.ts:137-165 | the chain after mining any number of blocks, as a whole: which receipts and transactions it shows, how many reverts are left, and what is untouched |
| `AnchorChain.SendKeeps` | packages/anchor/src/fake-transport.ts:167-204 | a send adds at most one transaction, with a fresh hash, that is pending and carries the digest it was given, to the address it was given |
| `AnchorVerify.PureChecks` | packages/anchor/src/verify-anchor.ts:79-130 | the checks that need no chain raise no problem if and only if the receipt commits to the checkpoint, is on its network's chain and is confirmed |
| `AnchorVerify.VerifyAnchorReceipt` | packages/anchor/src/verify-anchor.ts:71-216 | no problems if and only if all checks are true, and together exactly when the receipt commits to the checkpoint, is confirmed, on its network's chain, and the chain shows the transaction with that calldata, destination, block and success; each single check says what it says, or was not made |
| `AnchorVerify.ChainChecks` | packages/anchor/src/verify-anchor.ts:134-216 | the chain checks are made in order until a lookup fails or finds nothing, and raise no problem exactly when all of them come out true |
| `AnchorProtocol.PollIsFirstDecision` | packages/anchor/src/publisher.ts:342-376 | polling ends at the first poll that decides, with that poll's observation, and gives up exactly when no poll within the budget decides |
| `AnchorProtocol.PollObserves` | packages/anchor/src/publisher.ts:342-376 | what polling reports is what the last chain shows: its decision, and the block and depth of the transaction if it is in one |
| `AnchorProtocol.RetryOutlastsDrops` | packages/anchor/src/publisher.ts:608-628 | each drop costs one attempt: a transaction goes out, once, exactly when the network owes fewer drops than there are attempts |
| `AnchorProtocol.SubmitMeans` | packages/anchor/src/publisher.ts:279-315 | the whole effect of a submission: the answer from a row, a reservation or a sidecar entry, in that order, without any change; else one transaction to the anchor address with the digest, recorded in memory and in the sidecar; else its error |
| `AnchorProtocol.AwaitMeans` | packages/anchor/src/publisher.ts:327-376 | the whole effect of waiting: a stored row wins; a decision becomes the row and the answer, with the block and depth the chain shows; without one the answer is a submitted receipt with what the chain shows, or what it had, and nothing is stored |
| `AnchorProtocol.ConfirmedIsDeep` | packages/anchor/src/publisher.ts:342-376 | confirmed is only reported for a successful inclusion at the required depth or more, failed only for a reverted one |
| `AnchorProtocol.InclusionLeadsToConfirmation` | packages/anchor/src/publisher.ts:342-376 | a transaction successfully included by poll k, with a head rising from there, is confirmed whenever k + required - 1 polls are allowed |
| `AnchorProtocol.DefaultsConfirmByPoll49` | packages/anchor/src/publisher.ts:82-102 | with depth 192 and 240 polls, inclusion by poll 49 suffices |
| `AnchorProtocol.NeverReverted` | packages/anchor/src/publisher.ts:342-376 | a transaction seen successful at one moment is not seen reverted at another |
| `FinalityPolicy.RequiredConfirmations` | packages/anchor/src/publisher.ts:110-125 | the two names mean 1 and 192, and every accepted policy names a depth from 1 to the largest safe integer |
| `FinalityPolicy.DepthRoundTrip` | packages/anchor/src/publisher.ts:104-125 | a written depth is read back, as long as it is positive and a safe integer |
| `FinalityPolicy.AcceptedPolicies` | packages/anchor/src/publisher.ts:104-125 | besides the two names, a policy names depth n exactly when n is a safe positive integer and the policy is n in decimal, with any number of leading zeros, before the suffix |
| `AnchorPublisher.EvidenceStore.InsertAnchorReceipt` | packages/anchor/src/publisher.ts:132-137 | a row is appended exactly when its chain and transaction key is free, and rows are never changed |
| `AnchorPublisher.PendingFile.AddPendingSubmission` | packages/anchor/src/pending.ts:183-192 | the entry is last and there once, entries of the same chain and transaction are gone, all others stay, and its checkpoint is found from then on |
| `AnchorPublisher.PendingFile.RemovePendingSubmission` | packages/anchor/src/pending.ts:194-203 | exactly the entries of that chain and transaction go |
| `AnchorPublisher.BaseAnchorPublisher.constructor` | packages/anchor/src/publisher.ts:225-261 | a new publisher has no reservations |
| `AnchorPublisher.BaseAnchorPublisher.SendWithRetry` | packages/anchor/src/publisher.ts:608-628 | the retry loop sends until the first accepted send, at most attempts times; it succeeds exactly when fewer drops are owed than there are attempts |
| `AnchorPublisher.BaseAnchorPublisher.SubmitOnce` | packages/anchor/src/publisher.ts:298-315 | a stored receipt wins, then a reservation, then the sidecar, and only then is a transaction sent |
| `AnchorPublisher.BaseAnchorPublisher.SendAndReserve` | packages/anchor/src/publisher.ts:507-540 | after a send the reservation and the sidecar entry name it; after a failed send nothing is recorded |
| `AnchorPublisher.BaseAnchorPublisher.Submit` | packages/anchor/src/publisher.ts:279-296 | on a consistent chain, the whole effect of a submission that does not overlap another, errors included, in terms of the records and the chain before and after |
| `AnchorPublisher.BaseAnchorPublisher.PollUntilDecided` | packages/anchor/src/publisher.ts:342-376 | the poll loop ends with the specified verdict and chain |
| `AnchorPublisher.BaseAnchorPublisher.Finalize` | packages/anchor/src/publisher.ts:580-606 | the row is inserted before the reservation and the sidecar entry go; with a row already stored nothing changes |
| `AnchorPublisher.BaseAnchorPublisher.AwaitConfirmation` | packages/anchor/src/publisher.ts:327-376 | on a consistent chain, polling stops at the first deciding poll or the last one, and the answer and the records are exactly those of what the chain then shows: confirmed or failed only with a row, else submitted |
| `AnchorProtocol.RemovePendingIs` | packages/anchor/src/pending.ts:194-203 | removal takes every matching entry and no other |
| `AnchorProtocol.FindPendingFinds` | packages/anchor/src/pending.ts:205-214 | the search finds a matching entry whenever there is one |
| `AnchorRuns.SubmitKeeps` | packages/anchor/src/publisher.ts:279-315 | a submission keeps the invariant of the whole protocol |
| `AnchorRuns.AwaitKeeps` | packages/anchor/src/publisher.ts:327-376 | waiting for any issued receipt keeps the invariant |
| `AnchorRuns.CrashKeeps` | packages/anchor/src/publisher.ts:203-220 | losing all memory keeps the invariant when a sidecar is configured |
| `AnchorRuns.RunKeeps` | packages/anchor/src/publisher.ts:279-606 | the invariant holds after every run of submissions, waits, blocks, drops, reverts, new checkpoints and crashes |
| `AnchorRuns.AtMostOneSubmission` | packages/anchor/src/publisher.ts:279-315 | over every such run at most one transaction is ever sent per checkpoint, and every sent one has a stored row or a pending entry |
| `AnchorRuns.RowsVerify` | packages/anchor/src/publisher.ts:342-376 | a stored row passes every check of the independent verifier against the same chain if and only if it is confirmed, at the required depth |
| `AnchorRuns.RowsAreNeverTakenBack` | packages/anchor/src/publisher.ts:570-606 | rows of a run are a prefix of the rows of any continuation, so a row verifies at every later state |
| `AnchorRuns.DecisionsAreStored` | packages/anchor/src/publisher.ts:545-606 | over every run, crashes included, a receipt a caller was given is submitted or is a stored row: none says confirmed or failed without one |
| `AnchorRuns.WaitingStoresConfirmation` | packages/anchor/src/publisher.ts:327-376 | from any reachable state, waiting for an issued receipt on a chain that injects no faults and keeps producing blocks ends with a confirmed row for it, given required + 1 polls |
| `AnchorRuns.AnchoringIsPossible` | packages/anchor/src/publisher.ts:279-376 | a concrete run, for every configuration with polls to spare, that ends with a confirmed row |
| `AnchorRuns.MainnetNeedsBoth` | packages/anchor/src/publisher.ts:392-411 | over every run, nothing goes out to mainnet without both permissions |
| `AnchorRuns.CrashWithoutSidecarSendsTwice` | packages/anchor/src/publisher.ts:488-500 | a concrete run without a sidecar, with a crash between two submissions, sends two transactions |
| `AnchorRuns.SidecarIsNecessaryAndSufficient` | packages/anchor/src/publisher.ts:484-540 | no run, crashes included, ever sends two transactions for a checkpoint if and only if a sidecar is configured |
| `PinnedTransport.ViemChainTransport.constructor` | packages/anchor/src/viem-transport.ts:161-182 | a new transport has pinned nothing |
| `PinnedTransport.ViemChainTransport.PinnedSubmission` | packages/anchor/src/viem-transport.ts:357-369 | a caller awaits the signing already pinned for its submission, or pins a new one before anything is awaited |
| `PinnedTransport.ViemChainTransport.Resume` | packages/anchor/src/viem-transport.ts:369-378 | a settled signing is broadcast or thrown, only its initiator unpins a failed one, and every broadcast for the submission carries the same bytes |
| `PinnedTransport.MintedOnce` | packages/anchor/src/viem-transport.ts:357-378 | two signings of one submission that both came through are the same one |
| `PinnedTransport.StepPins` | packages/anchor/src/viem-transport.ts:239-261 | every step of every task keeps each live signing pinned, and only adds signings |
| `PinnedTransport.StepSourced` | packages/anchor/src/publisher.ts:298-315 | every hash recorded for a checkpoint comes from a signing of this process or was inherited for that checkpoint |
| `PinnedTransport.StepQuiet` | packages/anchor/src/publisher.ts:298-315 | a checkpoint with a stored row, no signing and no task past its row read stays so at every step: nothing is signed for it |
| `PinnedTransport.RunInv` | packages/anchor/src/viem-transport.ts:239-261 | the invariant over every interleaving of submissions, retries, confirmations and settling signings |
| `PinnedTransport.BroadcastsAreIdentical` | packages/anchor/src/viem-transport.ts:239-261 | for every interleaving and any RPC failures, all broadcasts of one checkpoint carry identical signed bytes |
| `PinnedTransport.CoherentNamesOne` | packages/anchor/src/publisher.ts:298-315 | in a process that inherited coherent records, any two hashes named for a checkpoint at any two moments are equal, even when a finalize clears the reservation mid-submit |
| `PinnedTransport.OvertakenNamesTwo` | packages/anchor/src/publisher.ts:580-606 | a concrete interleaving that names two hashes: an inherited pending entry without a row is finalized between a submission's two lookups |
| `PinnedTransport.OneHashIffCoherent` | packages/anchor/src/publisher.ts:298-315 | one process names one hash per checkpoint in all runs if and only if what it inherited for that checkpoint agrees on one hash and every inherited pending entry has its row |
| `PinnedTransport.SubmissionStartsSigning` | packages/anchor/src/viem-transport.ts:357-369 | a submission with nothing on record and nothing to share starts a signing of its own |
| `PinnedTransport.FailedSigningIsRetried` | packages/anchor/src/publisher.ts:608-628 | a signing that fails is started afresh while attempts remain, and nothing is recorded or broadcast meanwhile |
| `PinnedTransport.LastFailureEnds` | packages/anchor/src/publisher.ts:608-628 | the failure of the last attempt ends the submission, with nothing recorded, broadcast or left pinned |
| `PinnedTransport.SubmissionOutlastsFailures` | packages/anchor/src/publisher.ts:507-540 | however many signings fail, while an attempt is left the submission can come through, with one broadcast in all and the hash of its bytes as the answer |
| `PinnedTransport.LostAnswerIsRecovered` | packages/anchor/src/viem-transport.ts:239-261 | a broadcast whose answer is lost but which the chain has seen counts as sent |
| `PinnedTransport.LostBroadcastIsRepeated` | packages/anchor/src/viem-transport.ts:239-261 | one the chain has not seen is sent again with the same bytes |
| `PinnedTransport.OneSubmissionUnderWay` | packages/anchor/src/publisher.ts:279-296 | over every interleaving, at most one submission of a checkpoint is under way |
| `PinnedTransport.CallersShareAnswers` | packages/anchor/src/publisher.ts:279-296 | a caller that comes meanwhile waits for that submission and gets its answer; once it has left, the next one starts afresh |
| `PinnedTransport.GivingUpStoresNothing` | packages/anchor/src/publisher.ts:555-569 | polling that runs out changes no record |
| `PinnedTransport.ConfirmationIsStored` | packages/anchor/src/publisher.ts:580-606 | a confirmation that decides stores one row and only then drops the reservation and the entry |
| `EditDistance.EveryScriptCostsAtLeast` | packages/analysis/src/composition.ts:315-336 | no edit script between two sequences costs less than the recursive minimum |
| `EditDistance.SomeScriptCosts` | packages/analysis/src/composition.ts:315-336 | some edit script costs exactly the recursive minimum |
| `EditDistance.EditZero` | packages/analysis/src/carrier-perception.ts:144-165 | for a metric substitution cost, the edit cost is zero exactly for equal sequences |
| `EditDistance.EditSymmetric` | packages/analysis/src/carrier-perception.ts:144-165 | the edit cost is symmetric |
| `EditDistance.EditTriangle` | packages/analysis/src/carrier-perception.ts:144-165 | the edit cost obeys the triangle inequality |
| `MessageDistance.MessageEditDistance` | packages/analysis/src/composition.ts:315-336 | the two rolling rows compute the recursive minimum |
| `MessageDistance.LevenshteinIsMetric` | packages/analysis/src/composition.ts:315-336 | message distance is a metric |
| `MessageDistance.LevenshteinIsLeastScript` | packages/analysis/src/composition.ts:315-336 | message distance is the least cost over all edit scripts, and is attained |
| `MessageDistance.SingleMessages` | packages/analysis/src/composition.ts:315-336 | one message form differs from another by 1, and a message put in or left out costs 1 |
| `ToneDistance.ValidateTone` | packages/analysis/src/carrier-perception.ts:130-142 | a mark is accepted exactly when it is non-empty and inside the grammar |
| `ToneDistance.FillBorders` | packages/analysis/src/carrier-perception.ts:147-150 | the border cells of the flat table hold the costs against the empty mark |
| `ToneDistance.FillCell` | packages/analysis/src/carrier-perception.ts:151-163 | one cell of the flat table, from its three neighbours, disturbing no other |
| `ToneDistance.ToneEditCost` | packages/analysis/src/carrier-perception.ts:144-164 | the flat-array table ends with the recursive weighted minimum, scaled by 42 |
| `ToneDistance.ToneCostIsMetric` | packages/analysis/src/carrier-perception.ts:144-165 | tone cost before normalisation is a metric |
| `ToneDistance.ToneCostBound` | packages/analysis/src/carrier-perception.ts:144-165 | inside the grammar the cost is at most one gap per tone of the longer mark |
| `ToneDistance.SingleTones` | packages/analysis/src/carrier-perception.ts:147-163 | two tones differ by half their pitch difference over 7 plus half their duration difference over 3, and a tone without counterpart costs one |
| `ToneDistance.ToneDistance` | packages/analysis/src/carrier-perception.ts:144-165 | the normalised distance times its scale is the cost, lies in [0,1], and is zero exactly for equal marks |
| `Canvas.PixelsFollowLine` | packages/analysis/src/carrier-perception.ts:76-90 | the pixels run from one endpoint to the other, stay in the bounding box, advance one per round along the major axis, and are within half a pixel of the ideal line, a whole half only away from the start |
| `Canvas.TrackStep` | packages/analysis/src/carrier-perception.ts:76-90 | the error updates of one round keep the position on that pixel sequence |
| `Canvas.TrackEnds` | packages/analysis/src/carrier-perception.ts:76-90 | the exit test succeeds at the last pixel and not before |
| `Canvas.Paint` | packages/analysis/src/carrier-perception.ts:64-72 | a brush marks exactly the grid cells within its radius |
| `Canvas.DrawStroke` | packages/analysis/src/carrier-perception.ts:73-90 | the while (true) loop ends after exactly max(abs dx, abs dy) + 1 rounds, having marked exactly the cells covered by its pixels |
| `Canvas.Rasterise` | packages/analysis/src/carrier-perception.ts:61-92 | a mark is drawn exactly when it is valid, and a cell is set if and only if some pixel of some stroke is within half its width in both directions |
| `Holm.HolmBonferroni` | packages/analysis/src/hypothesis.ts:245-281 | the errors for a bad level, an empty family and a non-probability; otherwise the order-free adjusted values, which lie between the value and 1, and rejections that are those of closed testing |
| `Holm.AdjustedValues` | packages/analysis/src/hypothesis.ts:245-281 | the in-place loop over sorted values computes the order-free adjusted value at every input position |
| `Holm.RunningIsMaxWeight` | packages/analysis/src/hypothesis.ts:245-281 | the running maximum at a place is max over p_j <= p_i of #{k : p_k >= p_j} * p_j, so ties and input order do not matter |
| `Holm.HolmIsClosedTesting` | packages/analysis/src/hypothesis.ts:245-281 | a hypothesis is rejected if and only if every set of hypotheses containing it has a member whose p times the size of the set is at most alpha |
| `Ranking.OrderIsOrder` | packages/analysis/src/composition.ts:339-345 | sorting indices by value, stably, is a permutation in ascending order |
| `Ranks.MidRanks` | packages/analysis/src/composition.ts:339-365 | each value gets #less + (#equal + 1) / 2 |
| `Ranks.RanksSum` | packages/analysis/src/composition.ts:339-365 | the ranks of n values sum to n(n + 1) / 2 |
| `Ranks.RankBiserial` | packages/analysis/src/effects.ts:44-65 | U is the number of pairs the first sample wins plus half the ties, and r times the number of pairs is wins less losses; an empty sample is an error |
| `Ranks.UCountsPairs` | packages/analysis/src/effects.ts:44-65 | twice U counts every win twice and every tie once, and wins, ties and losses are all the pairs |
| `Ranks.CorrelationIsExcess` | packages/analysis/src/effects.ts:44-65 | r is the excess of wins over losses as a share of all pairs |
| `Ranks.PerfectCorrelation` | packages/analysis/src/effects.ts:44-65 | r is 1 exactly when every value of the first sample exceeds every value of the second |
| `Ranks.UFromRanks` | packages/analysis/src/effects.ts:44-65 | U is the pooled mid-rank sum of the first sample less nA(nA + 1) / 2 |
| `Ranks.ScoresComplement` | packages/analysis/src/effects.ts:44-65 | U(a,b) + U(b,a) = nA * nB |
| `Ranks.CorrelationIsAntisymmetric` | packages/analysis/src/effects.ts:44-65 | r is antisymmetric and within [-1,1] |
| `Reserves.BinomialInvalidAtMostProbability` | packages/analysis/src/confirmatory-selection.ts:72-93 | the result is the Pascal-recursion binomial distribution function, with a domain error exactly outside its domain |
| `Reserves.TermSum` | packages/analysis/src/confirmatory-selection.ts:84-92 | the multiplicative-coefficient loop computes the sum of binomial terms |
| `Reserves.ChooseStep` | packages/analysis/src/confirmatory-selection.ts:89 | the coefficient update C(n,k) * (n-k) / (k+1) is C(n,k+1) |
| `Reserves.SumIsCdf` | packages/analysis/src/confirmatory-selection.ts:72-93 | the term sum equals the distribution function defined by Pascal's recursion |
| `Reserves.CdfFallsInQ` | packages/analysis/src/confirmatory-selection.ts:72-93 | P(Bin(n,q) <= r) does not rise with q |
| `Reserves.AdequacyRisesBy` | packages/analysis/src/confirmatory-selection.ts:95-112 | P(Bin(n+r,q) <= r) does not fall with r |
| `Reserves.MinimumConfirmatoryReserveSeeds` | packages/analysis/src/confirmatory-selection.ts:95-112 | the reserve returned is a true threshold: exactly the reserves from it on suffice; the design-space error means none in it does |
| `Reserves.ReserveIsMonotoneInRate` | packages/analysis/src/confirmatory-selection.ts:95-112 | a higher invalid rate never needs a smaller reserve |
| `LiteralScanner.LiteralValue` | worksheets/ala-head-literal-census.py:27-69 | the index-advancing scan returns the specified bytes or the specified error, reads past the end included |
| `LiteralScanner.ScanBalanced` | worksheets/ala-head-literal-census.py:49-69 | the depth, string and escape flags find the end of the balanced object |
| `LiteralScanner.FindAnchor` | worksheets/ala-head-literal-census.py:34-37 | the first occurrence of the quoted key, else -1 |
| `LiteralScanner.SkipFrom` | worksheets/ala-head-literal-census.py:39-45 | the first byte that is not blank |
| `LiteralScanner.PassJson` | worksheets/ala-head-literal-census.py:52-69 | scanning over any printed value, nested, escaped or with braces in strings, changes neither depth nor string state |
| `LiteralScanner.ObjectIsBalanced` | worksheets/ala-head-literal-census.py:49-69 | over a printed object followed by any bytes the scan consumes exactly the object |
| `LiteralScanner.LiteralIsStretch` | worksheets/ala-head-literal-census.py:27-69 | whatever is returned is a stretch of the line, beginning where the object after the first occurrence of the key was found |
| `LiteralScanner.AfterKeyRoundTrip` | worksheets/ala-head-literal-census.py:38-69 | from just after the key, any blanks, a colon, any blanks and a printed object yield exactly that object |
| `LiteralScanner.LiteralRoundTrip` | worksheets/ala-head-literal-census.py:27-69 | the printed object after the first occurrence of the quoted key is returned byte for byte |
| `LiteralScanner.KeyedValueIffFirst` | worksheets/ala-head-literal-census.py:27-69 | the object after a given occurrence of the quoted key is what is returned, from that place, if and only if the line holds no earlier occurrence |
| `LiteralScanner.NestedKeyAnswersFirst` | worksheets/ala-head-literal-census.py:28-34 | a concrete line on which a nested member answers instead of the top-level one |
| `LiteralScanner.AbsentKeyIsReported` | worksheets/ala-head-literal-census.py:27-37 | the key is reported absent exactly when the quoted key stands nowhere in the line |
| `LiteralScanner.AfterKeyErrors` | worksheets/ala-head-literal-census.py:38-69 | the first byte after the key that is not blank must be a colon, the next one that is not blank an opening brace, each with its own error, and running off the line is a read past its end |
| `LiteralScanner.BlankAfterKey` | worksheets/ala-head-literal-census.py:38-41 | nothing but blanks after the key is a read past the end |
| `PermutationNull.StratifiedJointCounts` | packages/analysis/src/information.ts:283-305 | each cell is the number of observations with that stratum and pair; bad levels or indices are an error |
| `PermutationNull.GroupByStratum` | packages/analysis/src/information.ts:356-377 | each stratum's columns in observation order |
| `PermutationNull.ShuffleInPlace` | packages/analysis/src/information.ts:407-415 | the in-place loop leaves the Fisher-Yates shuffle of the old contents for the next draws of the stream, one per step |
| `PermutationNull.ShuffleIsPermutation` | packages/analysis/src/information.ts:407-415 | for every stream of draws the shuffle is a permutation |
| `PermutationNull.EveryPermutationIsReached` | packages/analysis/src/information.ts:407-415 | every permutation is the shuffle for some stream of draws |
| `PermutationNull.EveryFamilyIsReached` | packages/analysis/src/information.ts:381-396 | no two shuffles share a draw: whatever rearrangements are wanted of every stratum in every replicate, one stream of draws gives them all |
| `PermutationNull.RowMarginIsCount` | packages/analysis/src/information.ts:146-148 | a row margin counts the values of the row, whatever they are paired with |
| `PermutationNull.ColumnMarginIsCount` | packages/analysis/src/information.ts:150-155 | a column margin counts the values of the column |
| `PermutationNull.ReplicateKeepsMargins` | packages/analysis/src/information.ts:381-396 | a shuffled second column keeps every row sum, every column sum and the total, which is the number of observations |
| `PermutationNull.TotalMarginIsSize` | packages/analysis/src/information.ts:146-155 | the margins add up to the number of observations |
| `PermutationNull.ReplicateHasMargins` | packages/analysis/src/information.ts:381-396 | the cells of a table of shuffled pairs add up, by row, by column and in all, to the counts of the pairs as observed |
| `PermutationNull.ReplicatesMatchObserved` | packages/analysis/src/information.ts:343-405 | every replicate table of a stratum has the row sums, column sums and total of the observed table of that stratum |
| `PermutationNull.Tally` | packages/analysis/src/information.ts:386-391 | a fresh table of pair counts |
| `PermutationNull.PairsCounted` | packages/analysis/src/information.ts:386-391 | a cell of a table is the number of places that hold its pair |
| `PermutationNull.ReplicateTable` | packages/analysis/src/information.ts:383-392 | one stratum of a replicate: the table of the shuffled pairing, whose cells add up by row, by column and in all as the observed counts do |
| `PermutationNull.ReplicateTables` | packages/analysis/src/information.ts:343-405 | all replicates of all strata, from one stream of draws read in order, each cell table with the margins and size of its stratum; bad input or no permutations is an error |
| `E03Full.ReconcilePairedRuns` | packages/analysis/src/e03-full.ts:50-183 | success if and only if the packet is whole, every attempt is bound and carries its data, and the collection is acceptable, with exactly the specified outcome, whose pairs report the agreement rates and states of the attempts; each refusal names its cause, and a refused collection names its first faulty slot |
| `E03Full.CheckRegistered` | packages/analysis/src/e03-full.ts:53-79 | the packet checks succeed exactly for distinct runs, right slots, one run per condition, and one fresh seed per slot |
| `E03Full.CheckGroups` | packages/analysis/src/e03-full.ts:66-79 | the slot loop accepts exactly whole groups with shared, pairwise different seeds |
| `E03Full.GroupChecksAreExact` | packages/analysis/src/e03-full.ts:69-75 | the size comparisons of sets mean one run per condition and one seed |
| `E03Full.CheckAttempts` | packages/analysis/src/e03-full.ts:80-99 | the attempt loop accepts exactly bound, distinct attempts with their data or a registered reason |
| `E03Full.CheckedIsSound` | packages/analysis/src/e03-full.ts:100-102 | the count of primary attempts is full exactly when every primary run was attempted |
| `E03Full.PairSlot` | packages/analysis/src/e03-full.ts:104-121 | a slot is paired exactly when all its attempts are valid and saw the same scenarios |
| `E03Full.PairPrimaries` | packages/analysis/src/e03-full.ts:122-134 | the primary loop separates valid from invalid slots and excludes the valid runs of the invalid ones |
| `E03Full.PairReserves` | packages/analysis/src/e03-full.ts:135-158 | the reserve loop fails exactly on a partial, out of order, unneeded or diverging slot |
| `E03Full.KeyReplacements` | packages/analysis/src/e03-full.ts:162-166 | the k-th valid reserve is keyed by the k-th invalid primary |
| `E03Full.FillPrimaries` | packages/analysis/src/e03-full.ts:167-175 | included pairs in primary order, own pairs first choice, replacements second |
| `Reconciliation.EveryValidRunOnce` | packages/analysis/src/e03-full.ts:104-182 | every valid attempt is in exactly one included pair or exactly once in the excluded list, every other registered run in neither |
| `Reconciliation.EveryValidSlotIncluded` | packages/analysis/src/e03-full.ts:162-175 | each valid slot is the source of exactly one included pair |
| `Reconciliation.PairsAreDistinct` | packages/analysis/src/e03-full.ts:167-175 | included pairs stand for increasing primaries and have pairwise different sources |
| `Reconciliation.ReserveFillsItsRank` | packages/analysis/src/e03-full.ts:162-175 | the k-th valid reserve replaces the k-th invalid primary, and its pair is included there |
| `Reconciliation.AttemptedReservesArePrefix` | packages/analysis/src/e03-full.ts:139-149 | attempted reserves are the first ones, each attempted as a whole |
| `Reconciliation.CompleteIffFilled` | packages/analysis/src/e03-full.ts:167-177 | included pairs number primaries - invalid + valid reserves; the status is complete exactly when the last two are equal |
| `Reconciliation.AttemptsComeInSlots` | packages/analysis/src/e03-full.ts:176-182 | attempted runs are conditions x (primaries + attempted reserves), reserve attempts conditions x attempted reserves |
| `Reconciliation.ReservesFewEnough` | packages/analysis/src/e03-full.ts:159-161 | valid reserves never outnumber invalid primaries, so the last guard cannot fire |
| `ReconciledOutcome.IncludedPairsReport` | packages/analysis/src/e03-full.ts:104-121 | every included pair names the registered run of each condition of its source slot, its agreements over the episodes, and the states all of them saw; its use is primary exactly for a primary source |
| `ReconciledOutcome.PairHasAllConditions` | packages/analysis/src/e03-full.ts:112-117 | the conditions of a pair are exactly those of the design |
| `ReconciledOutcome.InvalidListsAreExact` | packages/analysis/src/e03-full.ts:122-158 | the invalid lists name, in ascending order, exactly the slots attempted in full and not validly, primaries and reserves apart |
| `ReconciledOutcome.ReplacementsAreExact` | packages/analysis/src/e03-full.ts:162-166 | the replacements name the first invalid primaries in order, and every successful reserve in order |
| `ReconciledOutcome.UnattemptedIsExact` | packages/analysis/src/e03-full.ts:139-145 | the unattempted list names every reserve run without an attempt once, and no other run |

## Left out

What the models assume or abstract from:

- Hashes are symbolic constructors, hence injective; canonical JSON, SHA-256, Keccak, key derivation and the leaf and node domain tags are not computed. The checks that a string is a well-formed hash have no counterpart, except for the digest sent to the chain and the state hashes of reconciliation.
- Trees of more than 2^31 leaves, where the 32-bit shift of `splitPoint` turns negative, are not modelled: the model's split point is the mathematical one. The verifiers' limit of 2^32 - 1 is kept.
- The evidence store is a record of runs, checkpoints, events and rows; SQLite, sockets, bundle export, files and their permissions are not part of this model. Writing a proof file or the sidecar never fails, and the sidecar file is the list it holds.
- Run identifiers, software commits, witnesses, signatures and time stamps of manifests, and class, policy, label and time fields of receipts, are left out: no decision reads them. The policy reaches the model as the depth it names.
- Hex strings that differ only in case are one value, so the case folding of keys and comparisons is not modelled.
- The fake chain's `setTransaction`, which seeds foreign transactions, is left out; so are failures of the polling RPCs in the sequential model (they end the call without an effect on rows or sidecar).
- A crash happens between operations. A crash between the chain's acceptance and the sidecar write is beyond what the code can recover and is not a step.
- A checkpoint hash belongs to one run, as it commits to its run; `AnchorRuns` lets a checkpoint be stored only so, and `PinnedTransport` keys in-flight submissions by checkpoint alone.
- `AnchorPublisher`'s methods run to completion, so its in-flight maps would always be empty and are not fields; they are part of the state of `PinnedTransport`, which leaves out only the sharing of confirmations (more interleavings, not fewer).
- `PinnedTransport` is one process; nonces across different checkpoints are unrelated there, as nothing in the code relates them.
- Floating point is exact arithmetic: `real` for probabilities and rates, tone costs scaled by 42, mid-ranks doubled. The reserve probability is summed from multiplicative coefficients, not from logarithms.
- Array indices, slots, levels and counts are integers; the source's refusals of fractional or non-finite numbers have no counterpart.
- The generator behind the permutation draws is a stream of numbers, one per call; its rejection sampling is not modelled.
- Random draws, clock readings, mined blocks and RPC outcomes are parameters or steps. `PermutationNull` stops at the replicate tables: the information statistic computed from them uses logarithms.
- `ScheduledCheckpoints`: an attempt reads all streams of the store at one moment (the code reads them one after the other), and writes its manifest at a later one.
- `CheckpointScheduler`'s timer is the `Tick` step; `Cadence` adds ideal ticks and attempts that succeed at once.

What the repository does that is not modelled:

- canvas, bitmap and shifted Hamming distances, and the perceptual generalization built on them: averages over cells with no law to state.
- topographic similarity, correlations, entropy, t quantiles, bootstrap bounds, power simulation and beta-binomial fits: no exact arithmetic.
- registration compilers, pilot summaries, schema checks, configuration, rolling windows and drift: long conditionals or single loops with easy facts.
- `anchorAndConfirm`, mainnet opt-in from the environment beyond one flag, redaction of provider errors: no state of their own.

Contracts stated weaker than the source:

- Reconciliation.EveryValidRunOnce: says how often a run is named, not in which order excluded runs are listed (the order is part of `E03Full.ReconcilePairedRuns`).
- E03Full.ReconcilePairedRuns: a refusal names its stage, and for a collection its first faulty slot; the wording that tells several faults of one stage or slot apart is not modelled.
- Cadence.WaitsAreBounded: assumes ideal ticks and attempts that succeed instantly; queueing behind a slow attempt is not timed.
- PinnedTransport.BroadcastsAreIdentical: within one process; a restart signs afresh by design.

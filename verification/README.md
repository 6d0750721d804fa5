# Recovery control plane: a verified model

A Dafny model of the algorithms and protocols at the core of a recovery control plane for AI agents, with proofs
of what they promise: binary deltas and content-addressed snapshots, retention sweeps and lineage walks, exclusive
publication of a file by racing processes, descendant collection over cyclic parent pointers, fenced durable writes,
Merkle inclusion proofs, verified atomic restore, webhook processing under redelivery and crashes, and the recovery
credit ledger. `dafny verify dfyconfig.toml` checks everything.

## Layout

| file | models |
|---|---|
| `Prelude.dfy` | byte strings, results, Python slices, big-endian packing |
| `Delta.dfy` | the delta encoder and decoder |
| `SnapshotTypes.dfy`, `SnapshotRecords.dfy` | chunks, records, reconstruction, integrity verification, content binding |
| `Retention.dfy`, `RetentionLaws.dfy` | the retention sweep, as written and as intended |
| `Lineage.dfy`, `SnapshotRepository.dfy` | the parent walk and the in-memory repository |
| `SnapshotService.dfy` | capture, incremental capture and verified reconstruction across the whole store |
| `Publish.dfy`, `PublishFaults.dfy` | exclusive publication as a transition system of any number of processes, and which faults it survives |
| `Descendants.dfy` | the recursive traversal with a shared visited set |
| `Fence.dfy` | fencing over every write history |
| `Merkle.dfy`, `MerkleSizes.dfy` | proof verification, the tree builder, collision extraction, and what a root says across sizes |
| `Restore.dfy`, `RestoreFaults.dfy`, `RestoreProgram.dfy` | restore as a transition system with crashes and tampering, which faults it survives, and the program that refines it |
| `Webhook.dfy`, `WebhookOutcomes.dfy`, `WebhookLaws.dfy`, `WebhookPayouts.dfy` | webhook deliveries with a crash or exception between any two writes |
| `Credits.dfy`, `CreditLaws.dfy`, `CreditCharges.dfy`, `CreditService.dfy` | the credit wallet, its ledger and its holds |
| `CreditBalance.dfy`, `CreditAudit.dfy` | when the ledger adds up, step by step and over runs |
| `CreditGrants.dfy` | webhook grants against the credit service |

## Conventions

- SHA-256, zlib, AES-GCM, the canonical row encoding and the JSON and database formats are function-valued
  parameters (`Crypto`, `Hash`, `Codec`). Of the codecs only their round trips are assumed; of the hash only the shape
  of its output. No hash is assumed injective: every binding result ends in "or this pair is a collision", and the
  pair is computed by a function.
- Clock readings, nonces, time stamps in ids, and which operating-system call fails are parameters.
- Instants are `real` seconds. Integers are unbounded, as in Python; the eight-byte header fields of a delta are
  packed and unpacked explicitly.
- Raised exceptions are `Result` or `Option` values, or outcomes of a step.

## Where the code and its documentation part

The code is modelled as it is; each point has a lemma with a concrete or general witness and, where the property
depends on the input, the exact condition.

- The retention sweep computes the retained set once, so it saves only direct parents of what it retains. A
  grandparent can be deleted (`RetentionLaws.GrandparentIsSwept`); `ClosedExactly` says exactly when the survivors are
  ancestor-closed, `AsWrittenAgainstIntended` compares with the loop that recomputes the set, and
  `SnapshotService.SweepKeepsExactly` says which snapshots can no longer be reconstructed.
- `get_lineage` raises on a cycle, and also when the walk reads a parent id made of white space only
  (`Lineage.BlankParentRaises`).
- "Exactly one of them wins, the other is told the baseline already exists" holds of concurrent publishers for exactly
  those faults that neither spoil nor muffle (`PublishFaults.DocumentedExactly`). Refused links and failing final
  clean-ups do no harm. A failing create, write, reservation, close or replace, a link or replace that takes effect but
  reports an error, and a crash can each leave no winner; an unremovable temporary file can make a loser report a
  failure. At most one wins, always.
- A Merkle proof binds its leaf digest against digests of its own length, and of lengths beyond both first children
  together, but of no length in between (`Merkle.LeafBindsExactly`). A root determines its leaf digests exactly among
  trees of one size (`MerkleSizes.RootBindsExactly`); between sizes it commits to the list of entries up to padding
  (`MerkleSizes.LogsBind`, `MerkleSizes.PaddedLogsShareRoot`).
- A restore that raises an error can have replaced the live database: when the swap takes effect and then reports an
  error, or when removing the staging path fails after the swap. `RestoreFaults.FailsClosedExactly` says that these are
  all the faults that matter, and that the message "left untouched" is wrong only where the swap reports an OSError.
- One paid invoice is granted at most once if and only if it carries a usable line
  (`WebhookPayouts.PaidAtMostOnceExactly`). A proper subscription period is not enough, since it may move between
  two deliveries (`WebhookPayouts.MovedPeriodGrantsTwice`).
- The credit ledger adds up to the wallet after a run if and only if no period was reset over a live hold or an expiry
  that is already recorded (`CreditAudit.RunBalancedExactly`, `CreditBalance.HoldAcrossRenewalDrifts`).

## Model

| member | source | states |
|---|---|---|
| `Prelude.UnpackPack` | app/domain/entities/snapshot_types.py:607-608 | big-endian packing into k bytes is undone by unpacking, for every number that fits |
| `Delta.LongestCommonPrefix` | app/domain/entities/snapshot_types.py:592-595 | the first scan stops at the longest common prefix: agreement below, difference at the end |
| `Delta.LongestCommonSuffix` | app/domain/entities/snapshot_types.py:597-600 | the second scan finds the longest common suffix of what the first one left |
| `Delta.CutUnique` | app/domain/entities/snapshot_types.py:592-606 | the cut into prefix, two middles and suffix is determined by the two byte strings |
| `Delta.ComputeDelta` | app/domain/entities/snapshot_types.py:588-608 | returns the envelope of the unique maximal cut, and raises exactly when a length needs more than eight bytes |
| `Delta.DeltaUnique` | app/domain/entities/snapshot_types.py:588-608 | the encoder's contract admits one result only |
| `Delta.ParseEncode` | app/domain/entities/snapshot_types.py:607-636 | parsing an envelope recovers all five packed fields and all four segments |
| `Delta.AcceptedExactly` | app/domain/entities/snapshot_types.py:611-643 | on any base a delta is refused for length, refused for a differing middle, or yields the new data; nothing else |
| `Delta.DecodesExactly` | app/domain/entities/snapshot_types.py:611-643 | on every byte string, forged ones included: it is decoded if and only if magic, five fields and body announce each other exactly, the base has the announced size and agrees on the middle; and what it then yields |
| `Delta.RoundTrip` | app/domain/entities/snapshot_types.py:588-643 | applying a computed delta to the old data gives the new data, for all byte strings below 2^64 |
| `Delta.DeltaLength` | app/domain/entities/snapshot_types.py:602-608 | a delta has 68 + old length + new middle length bytes |
| `Delta.OutputIgnoresBase` | app/domain/entities/snapshot_types.py:611-643 | for every byte string taken as a delta, the base decides acceptance only, and the final size check never fires |
| `SnapshotTypes.ChunkRoundTrip` | app/domain/entities/snapshot_types.py:179-274 | exact success condition; the chunk is hashed, measured, compressed and sealed under key and nonce as asked, decodes to its data, verifies, and if encrypted does not decode without a proper key |
| `SnapshotTypes.ChunkIntactExactly` | app/domain/entities/snapshot_types.py:258-274 | a chunk verifies if and only if it opens, unpacks, and both sizes and the digest fit |
| `SnapshotTypes.DecodesExactly` | app/domain/entities/snapshot_types.py:236-256 | a chunk decodes under the same conditions, with the compressed size checked on encrypted chunks only |
| `SnapshotTypes.DecodeChunksExactly` | app/domain/entities/snapshot_types.py:123-128 | chunks decode together if and only if they are numbered in order and each decodes, and then to the concatenation |
| `SnapshotTypes.PiecesCover` | app/domain/entities/snapshot_types.py:318-330 | the pieces concatenate to the payload and are ceil(n / size) many |
| `SnapshotTypes.PieceIsSlice` | app/domain/entities/snapshot_types.py:318-330 | piece i is the slice of chunk-size bytes at i times the chunk size |
| `SnapshotTypes.ChunkPayload` | app/domain/entities/snapshot_types.py:318-330 | the chunk loop makes one chunk per piece in order, and fails exactly on a bad key with something to encrypt |
| `SnapshotRecords.Store` | app/domain/entities/snapshot_types.py:318-362 | chunking, chain hash, id and re-scoping give a record that stores exactly the body, sealed piece by piece, with the retention fields asked for |
| `SnapshotRecords.CreateFull` | app/domain/entities/snapshot_types.py:300-362 | succeeds exactly on valid arguments; the record stores the payload in ceil(n / size) chunks, sealed under the key if there is one, with the policy, parameters and expiry asked for |
| `SnapshotRecords.SealedNeedsKey` | app/domain/entities/snapshot_types.py:131-142 | a non-empty record made with a key does not decode under a missing key or one of a wrong length |
| `SnapshotRecords.CreateIncremental` | app/domain/entities/snapshot_types.py:365-433 | exact success condition in terms of the supplied or reconstructed base data; the record seals the delta from that data, with parent, root, depth and retention recorded |
| `SnapshotRecords.ReconstructFull` | app/domain/entities/snapshot_types.py:436-446 | a full snapshot reconstructs to its payload, whatever base is given |
| `SnapshotRecords.IncrementalApplies` | app/domain/entities/snapshot_types.py:386-394 | an incremental applied to the data it was built from yields its payload |
| `SnapshotRecords.ReconstructIncremental` | app/domain/entities/snapshot_types.py:436-460 | reconstruction with a base works on a full parent and fails on every incremental one |
| `SnapshotRecords.ReconstructsExactly` | app/domain/entities/snapshot_types.py:436-460 | an incremental reconstructs from a supplied record if and only if that is its own parent, of its own tenant and a full snapshot, and its delta applies |
| `SnapshotRecords.IntactExactly` | app/domain/entities/snapshot_types.py:462-533 | verification passes if and only if the record stores some body, it materialises on the base, and the recorded hash fits |
| `SnapshotRecords.FreshFullIntact` | app/domain/entities/snapshot_types.py:300-362 | a fresh full snapshot verifies |
| `SnapshotRecords.FreshIncrementalIntact` | app/domain/entities/snapshot_types.py:365-433 | a fresh incremental verifies on its base data, and on no base, exactly when its depth is not negative |
| `SnapshotRecords.MarkVerifiedStable` | app/domain/entities/snapshot_types.py:535-569 | marking an intact snapshot keeps it intact under the same key and base |
| `SnapshotRecords.MarkedThenVerifiedBare` | app/domain/entities/snapshot_types.py:503-569 | marked with base data, then verified without: passes exactly when delta and data share a digest |
| `SnapshotRecords.ChainDetermines` | app/domain/entities/snapshot_types.py:117-120 | equal preimages of the chunk hash chain mean equal chunk counts and equal chunk hashes |
| `SnapshotRecords.ContentBinds` | app/domain/entities/snapshot_types.py:117-128 | two verified records with one content hash decode to the same bytes, or the extracted pair is a SHA-256 collision |
| `RetentionLaws.ExpiryAgrees` | app/domain/repositories/snapshot_repository.py:60-73 | the stamped and the recomputed expiry agree: expired exactly when the policy counts days and as many as the parameters ask for have passed |
| `RetentionLaws.CountExactly` | app/domain/entities/snapshot_types.py:80-88 | the retention count is that of the first of the five keys present, if a positive integer, and 1 without any |
| `RetentionLaws.DaysExactly` | app/domain/entities/snapshot_types.py:70-77 | the retention days are those of the first of the three keys present, if a non-negative number, and 30 without any |
| `RetentionLaws.ValidRetentionExactly` | app/domain/entities/snapshot_types.py:91-104 | exactly which parameters each policy accepts |
| `RetentionLaws.StampExactly` | app/domain/entities/snapshot_types.py:107-114 | a new record expires as many days after its creation as asked for, under the policies that count days, and never under the others |
| `Retention.SortNewestFirst` | app/domain/repositories/snapshot_repository.py:77-77 | the same records, ordered by time and then id, newest first |
| `Retention.ExpiredIds` | app/domain/repositories/snapshot_repository.py:78-81 | the ids of exactly the time-expired records |
| `Retention.GroupSnapshots` | app/domain/repositories/snapshot_repository.py:83-90 | every counted record is in the group of its policy and parameters, and each group is complete and newest first |
| `Retention.PositionIsRank` | app/domain/repositories/snapshot_repository.py:92-98 | the position in a group is the number of newer peers |
| `Retention.OverflowIds` | app/domain/repositories/snapshot_repository.py:92-98 | selects exactly the records with at least N newer peers in their group |
| `Retention.RetentionCandidates` | app/domain/repositories/snapshot_repository.py:76-113 | exactly (expired or beyond N) minus parents of the initially retained, without repetition, newest first; terminates |
| `RetentionLaws.DoomedShrinks` | app/domain/repositories/snapshot_repository.py:76-98 | deleting records only improves ranks, so it dooms nothing new |
| `RetentionLaws.SweepIdempotent` | app/domain/repositories/snapshot_repository.py:224-231 | a second sweep at the same time deletes nothing |
| `RetentionLaws.NewestOutliveSweeps` | app/domain/repositories/snapshot_repository.py:83-98 | the newest N of a group survive every series of sweeps until they expire by time |
| `RetentionLaws.KeepsTheLastN` | app/domain/repositories/snapshot_repository.py:83-113 | from the parameters themselves: with fewer than N later peers a snapshot outlives all sweeps until it expires by time; with N or more it is doomed, and swept if and only if all its children are |
| `RetentionLaws.SweptExactly` | app/domain/repositories/snapshot_repository.py:100-110 | a doomed snapshot is swept if and only if all its children are doomed |
| `RetentionLaws.KeepAllOutlivesSweeps` | app/domain/repositories/snapshot_repository.py:60-100 | a keep-all snapshot without expiry survives every series of sweeps |
| `RetentionLaws.ClosedExactly` | app/domain/repositories/snapshot_repository.py:100-110 | survivors are ancestor-closed if and only if no protected snapshot has a doomed, unprotected parent |
| `RetentionLaws.IntendedCandidates` | app/domain/repositories/snapshot_repository.py:100-110 | recomputing the retained set yields the largest deletion that keeps the store ancestor-closed, and terminates |
| `RetentionLaws.AsWrittenAgainstIntended` | app/domain/repositories/snapshot_repository.py:100-110 | the code deletes a superset of what is intended, equal if and only if its survivors are ancestor-closed |
| `RetentionLaws.GrandparentIsSwept` | app/domain/repositories/snapshot_repository.py:100-110 | A <- B <- C with A and B expired: A is deleted although its descendants stay |
| `Lineage.WalkLineage` | app/domain/repositories/snapshot_repository.py:233-251 | terminates on every store and returns a complete lineage, a blank parent id, or a cycle, each exactly when it is one |
| `Lineage.OutcomeUnique` | app/domain/repositories/snapshot_repository.py:233-251 | the three outcomes exclude each other, so they characterise the result of the walk |
| `Lineage.LineageUnique` | app/domain/repositories/snapshot_repository.py:233-251 | a root-first, parent-linked chain ending at an id and starting without a stored parent is unique |
| `Lineage.LineageEnds` | app/domain/repositories/snapshot_repository.py:233-251 | a lineage has no repeated id, and the parent walk is finite |
| `Lineage.RepeatIsEndless` | app/domain/repositories/snapshot_repository.py:241-243 | a walk that meets an id twice never ends |
| `Lineage.BlankParentRaises` | app/domain/repositories/snapshot_repository.py:233-251 | any stored record whose parent id is white space makes the walk raise, without a cycle |
| `SnapshotRepository.SweptTwice` | app/domain/repositories/snapshot_repository.py:224-231 | sweeping a tenant's store twice at one time is sweeping it once |
| `SnapshotRepository.InMemorySnapshotRepository.constructor` | app/domain/repositories/snapshot_repository.py:155-157 | starts empty for every tenant, with both dictionaries in agreement |
| `SnapshotRepository.InMemorySnapshotRepository.Save` | app/domain/repositories/snapshot_repository.py:159-177 | accepts exactly well-scoped records, stores records and chunks together, leaves other tenants alone |
| `SnapshotRepository.InMemorySnapshotRepository.Get` | app/domain/repositories/snapshot_repository.py:179-182 | the tenant's record under the id, if any; raises exactly on blank arguments |
| `SnapshotRepository.InMemorySnapshotRepository.Delete` | app/domain/repositories/snapshot_repository.py:215-222 | removes record and chunks, tells whether there was one, leaves all else alone |
| `SnapshotRepository.InMemorySnapshotRepository.DeleteExpired` | app/domain/repositories/snapshot_repository.py:224-231 | the tenant's store becomes its swept store, and the count is the number of swept ids |
| `SnapshotRepository.InMemorySnapshotRepository.GetLineage` | app/domain/repositories/snapshot_repository.py:233-251 | empty for an unknown id, otherwise the outcome of the parent walk |
| `SnapshotRepository.InMemorySnapshotRepository.GetChunks` | app/domain/repositories/snapshot_repository.py:253-256 | the chunks are always those of the stored record |
| `SnapshotService.ReplayAll` | app/domain/services/snapshot_intelligence.py:202-222 | the replay loop computes the fold of delta application over the lineage |
| `SnapshotService.VerifyAll` | app/domain/services/snapshot_intelligence.py:234-266 | the verification loop checks every record on the data replayed so far, against the root of the lineage |
| `SnapshotService.ReplaysExactly` | app/domain/services/snapshot_intelligence.py:193-222 | a lineage replays to data if and only if there are successive states, each a full snapshot's own or a delta applied to the one before, that end in it |
| `SnapshotService.VerifiesExactly` | app/domain/services/snapshot_intelligence.py:224-269 | it verifies if and only if, besides, every record passes on the state before it and every incremental names the root |
| `SnapshotService.VerifiedReplays` | app/domain/services/snapshot_intelligence.py:193-269 | a lineage that verifies replays, to the very data that verification computed |
| `SnapshotService.ChainReplay` | app/domain/entities/snapshot_types.py:386-433 | one full snapshot and incrementals built state by state: they are the lineage, depth is position, base is the root, and replay yields the last state |
| `SnapshotService.RecoverableFunctional` | app/domain/services/snapshot_intelligence.py:193-222 | a stored snapshot is recoverable to at most one byte string |
| `SnapshotService.RecoverableVerifies` | app/domain/services/snapshot_intelligence.py:165-222 | recoverable snapshots verify, and what verifies replays to the same data |
| `SnapshotService.RecoverableAfterDelete` | app/domain/repositories/snapshot_repository.py:215-231 | after any deletion a snapshot is still recoverable if its whole lineage was spared; otherwise nothing at all is replayed for it |
| `SnapshotService.SweepPreservesRecovery` | app/domain/repositories/snapshot_repository.py:224-231 | if the survivors of a sweep are ancestor-closed, every surviving recoverable snapshot yields the same data |
| `SnapshotService.SweepKeepsExactly` | app/domain/services/snapshot_intelligence.py:165-222 | after a sweep as written a snapshot yields the same data if no member of its lineage was swept; otherwise neither replay nor verified reconstruction of it succeeds, whatever the data |
| `SnapshotService.SnapshotIntelligenceService.Capture` | app/domain/services/snapshot_intelligence.py:85-110 | exact success condition; the stored record carries the retention, encryption and verification asked for, is recoverable to the captured data and, under a new id, nothing recoverable is lost |
| `SnapshotService.SnapshotIntelligenceService.CaptureIncremental` | app/domain/services/snapshot_intelligence.py:112-144 | exact success condition; the stored record extends the base with the retention, encryption and verification asked for and, on a recoverable base and under a new id, is recoverable to the captured data |
| `SnapshotService.SnapshotIntelligenceService.ReconstructLineage` | app/domain/services/snapshot_intelligence.py:193-222 | returns data if and only if the lineage exists and replays to that data |
| `SnapshotService.SnapshotIntelligenceService.Reconstruct` | app/domain/services/snapshot_intelligence.py:165-177 | returns data if and only if the whole lineage verifies link by link to that data |
| `Publish.StepKeepsInv` | interlock_cli.py:396-431 | every step of every process keeps the inductive invariant on targets, reservations and payloads |
| `Publish.StepRespectsOwner` | interlock_cli.py:408-427 | the target changes only from absent or by its owner before it has won, and winners stay winners |
| `Publish.PublicationIsFinal` | interlock_cli.py:380-431 | after a success the target holds the winner's payload forever; a file present at the start never changes |
| `Publish.AtMostOneWinner` | interlock_cli.py:380-431 | at most one process succeeds over all states of every interleaving, with failures at every step |
| `Publish.TargetIsNeverTorn` | interlock_cli.py:396-431 | the target is always absent, the original, an empty reservation or one whole payload; a reserving process owns it |
| `Publish.SomebodyPublishes` | interlock_cli.py:396-431 | from the outcomes alone: if all finished and none failed or crashed, the target holds one process's payload and every process but that one was told it exists |
| `Publish.EverybodyCanLose` | interlock_cli.py:420-427 | for any two payloads a run in which a replace fails, both processes lose and no file is left |
| `PublishFaults.StepKeepsFaultInv` | interlock_cli.py:396-431 | without spoiling faults every step keeps: what is at the target is backed by a winner or a live reservation, and nobody has ended while it is absent |
| `PublishFaults.OneWinnerExactly` | interlock_cli.py:380-431 | for every set of faults: all finished runs of any number of processes have exactly one winner, if and only if no spoiling fault is in the set |
| `PublishFaults.DocumentedExactly` | interlock_cli.py:386-390 | for every set of faults: all finished runs have one winner and all others told that the file exists, if and only if the set has neither a spoiling nor a muffling fault |
| `PublishFaults.EachFaultSpoils` | interlock_cli.py:396-431 | each spoiling fault, on its own, leaves a lone publisher without success in some run |
| `PublishFaults.EachFaultMuffles` | interlock_cli.py:408-417 | each muffling fault, on its own, makes the loser report a failure instead of an existing file in some run |
| `Descendants.Collect` | demo_e2e_causal_recovery.py:118-127 | the recursive closure terminates on every table and extends result and visited set as the traversal specifies |
| `Descendants.CollectedSound` | demo_e2e_causal_recovery.py:118-127 | everything collected is an unvisited same-tenant descendant, once |
| `Descendants.CollectedClosed` | demo_e2e_causal_recovery.py:118-127 | when a call returns, the children of all it recorded and of its own parent have been visited |
| `Descendants.DescendantsExactly` | demo_e2e_causal_recovery.py:109-130 | for cyclic tables too: exactly the same-tenant actions reachable in one or more steps, once each, parents first |
| `Descendants.RootListedIffCyclic` | demo_e2e_causal_recovery.py:109-130 | the root is listed if and only if it lies on a cycle |
| `Descendants.PagesConcatenate` | demo_e2e_causal_recovery.py:130-130 | consecutive pages from any offset are one large page |
| `Descendants.AllPages` | demo_e2e_causal_recovery.py:130-130 | enough consecutive pages from the start are the whole list |
| `Descendants.PutFinds` | demo_e2e_causal_recovery.py:132-134 | saving replaces exactly the action with that id and keeps ids distinct |
| `Descendants.LastActionIsStored` | demo_e2e_causal_recovery.py:99-101 | the repository holds the last action given for each id, and one action an id |
| `Descendants.InMemoryActionRepo.constructor` | demo_e2e_causal_recovery.py:99-101 | the table is the dictionary built from the list in order |
| `Descendants.InMemoryActionRepo.Save` | demo_e2e_causal_recovery.py:132-134 | afterwards the id finds the saved action and every other id what it found before; ids stay distinct |
| `Descendants.InMemoryActionRepo.ListDescendants` | demo_e2e_causal_recovery.py:109-130 | the requested slice of the descendants and their number as a set; nothing for an unknown or foreign root |
| `Fence.InMemoryDurableRepo.Save` | demo_e2e_causal_recovery.py:421-434 | accepts or rejects by the fence rule, and moves step and fence together or not at all |
| `Fence.FenceIsTop` | app/domain/repositories/causal_state_repositories.py:120-139 | after every history a step's fence is the highest token presented for it, accepted or not, from zero |
| `Fence.FenceNeverDecreases` | app/domain/repositories/causal_state_repositories.py:120-139 | along every history each fence is monotone |
| `Fence.AcceptedExactly` | app/domain/repositories/causal_state_repositories.py:120-139 | acceptance in terms of the history alone: no token, or non-negative and no earlier higher token for the step |
| `Fence.AcceptedTokensAscend` | demo_e2e_causal_recovery.py:421-434 | the tokens accepted for one step never decrease |
| `Fence.FenceOnlyMovesByToken` | demo_e2e_causal_recovery.py:421-434 | a rejected write changes nothing, a token-less one no fence, and no write touches another step |
| `Fence.StoredIsLastAccepted` | demo_e2e_causal_recovery.py:421-434 | the stored step is the last accepted write, with any mix of writers |
| `Fence.NewestTokenWins` | demo_e2e_causal_recovery.py:421-434 | without token-less writes the stored step is the last among those carrying the highest token |
| `Fence.NegativeTokensNeverStored` | app/domain/repositories/causal_state_repositories.py:120-139 | a step whose writers all carry negative tokens is never stored |
| `Merkle.FromHexToHex` | app/domain/entities/forensic_types.py:90-97 | hexadecimal encoding is undone by decoding |
| `Merkle.HashesMean` | app/domain/entities/forensic_types.py:90-97 | leaves and nodes are hashed under their own prefixes, the left child first |
| `Merkle.Verify` | app/domain/entities/forensic_types.py:113-120 | the loop computes the climb along the path, fails on unequal lengths and raises on a digest that is not hexadecimal |
| `Merkle.ProofsBind` | app/domain/entities/forensic_types.py:90-120 | equal directions, one root and leaf digests of one length: equal leaf digests, or the extracted pair is a collision |
| `Merkle.VerifiedProofsBind` | app/domain/entities/forensic_types.py:113-120 | the same for two accepted proof objects |
| `Merkle.LeafIsNoNode` | app/domain/entities/forensic_types.py:90-120 | a longer proof ending in a shorter one's directions, whose leaf is a hashed entry, yields a leaf/node collision |
| `Merkle.PreimagesBind` | app/domain/entities/forensic_types.py:94-120 | whatever the lengths, two accepted proofs hash the same first preimage, or the extracted pair is a collision |
| `Merkle.LengthIsNotBound` | app/domain/entities/forensic_types.py:94-120 | every accepted proof with a path has an accepted rival for a leaf digest of any length up to both first children together, without a collision between the two |
| `Merkle.LeafBindsExactly` | app/domain/entities/forensic_types.py:94-120 | for every length m: all accepted rivals with an m-byte leaf digest agree with the proof or yield a collision, if and only if m is its own length or exceeds both first children together |
| `Merkle.ComputeRoot` | app/domain/services/merkle_audit_log_service.py:41-58 | the sentinel for no leaves, the leaf for one, the level-by-level root for more; raises exactly on a leaf that is not hexadecimal |
| `Merkle.LevelUp` | app/domain/services/merkle_audit_log_service.py:51-57 | one pass computes the next level, pairing an odd last digest with itself |
| `Merkle.GeneratedProofVerifies` | app/domain/services/merkle_audit_log_service.py:60-115 | the sibling path of every leaf of every tree climbs to the root |
| `Merkle.GenerateProof` | app/domain/services/merkle_audit_log_service.py:60-115 | none for an unknown digest, otherwise a proof that verifies against the root of the leaves |
| `Merkle.SiblingPath` | app/domain/services/merkle_audit_log_service.py:78-104 | the generator's loop collects the sibling path level by level |
| `Merkle.RootBindsLeaves` | app/domain/services/merkle_audit_log_service.py:41-58 | equal roots of trees of one size mean equal leaves, or the pair extracted from the trees is a collision |
| `MerkleSizes.PaddedClimbs` | app/domain/services/merkle_audit_log_service.py:41-58 | every position of the tree padded to a full one climbs to the root along the bits of the position |
| `MerkleSizes.SamePaddingSameRoot` | app/domain/services/merkle_audit_log_service.py:51-57 | trees of any sizes whose leaf lists are equal after padding have one root |
| `MerkleSizes.RootIgnoresRepeatedLast` | app/domain/services/merkle_audit_log_service.py:51-57 | the special case: repeating the last leaf of any odd tree keeps its root |
| `MerkleSizes.LogsBind` | app/domain/services/merkle_audit_log_service.py:41-58 | two logs of entries, of any sizes, with one root have equal padded entry lists, or the pair extracted from them is a collision |
| `MerkleSizes.PaddedLogsShareRoot` | app/domain/services/merkle_audit_log_service.py:41-58 | conversely, logs with equal padded entry lists have one root |
| `MerkleSizes.AnySizesShareARoot` | app/domain/services/merkle_audit_log_service.py:41-58 | for any two sizes there are lists of proper digests of these sizes with one root |
| `MerkleSizes.RootBindsExactly` | app/domain/services/merkle_audit_log_service.py:41-58 | a root determines the leaf digests, up to an extracted collision, if and only if the two sizes are equal |
| `Restore.VerifyRows` | app/infrastructure/backup_restore.py:332-348 | the row check passes exactly when count and seals fit, and counts the sealed rows |
| `Restore.StepKeepsInv` | app/infrastructure/backup_restore.py:177-380 | every step, failure, crash and tampering keeps the invariant of the restore |
| `Restore.RestoreIsAtomic` | app/infrastructure/backup_restore.py:300-374 | in every state of every run the live database is the old one or a complete attested snapshot, and success is attested with the reported row count |
| `Restore.LiveChangesOnce` | app/infrastructure/backup_restore.py:358-374 | the live database changes at most once in a run |
| `Restore.AttestedMeans` | app/infrastructure/backup_restore.py:318-348 | attested means: format and artifact names, the manifest digest, the manifest row count, every sealed row re-hashes, and the reported count |
| `Restore.DumpMeans` | app/infrastructure/backup_restore.py:230-284 | a dump passes its layer if and only if version, hash spec and count fit and every sealed record re-hashes |
| `Restore.EveryLayerIsEnforced` | app/infrastructure/backup_restore.py:177-380 | without interference success implies that every layer passed and that the live database is the snapshot |
| `Restore.DumpRecords` | app/infrastructure/backup_restore.py:75-104 | fails exactly if a seal is broken, otherwise one record a row, in order, with the row's own seal and preimage |
| `Restore.ExportBackup` | app/infrastructure/backup_restore.py:107-174 | exact success condition, never over an existing manifest; snapshot, dump and manifest describe one copy |
| `Restore.ExportMirrorsRows` | app/infrastructure/backup_restore.py:107-174 | record i of an exported dump carries the seal and preimage of row i of the exported snapshot |
| `Restore.ExportPassesChecks` | app/infrastructure/backup_restore.py:107-284 | what was exported passes every integrity layer of the restore |
| `RestoreFaults.FailsClosedExactly` | app/infrastructure/backup_restore.py:300-374 | for every set of faults: all runs that raise an error leave the live database as it was, if and only if no swap takes effect before an error and the final clean-up cannot fail; refusals alone, if and only if no swap reports an OSError after taking effect |
| `RestoreFaults.SafeHalf` | app/infrastructure/backup_restore.py:300-374 | the safe direction of both, from any files whatsoever |
| `RestoreFaults.EachFaultBetrays` | app/infrastructure/backup_restore.py:358-374 | each such fault, on its own, raises an error over the restored database in some run from every export |
| `RestoreFaults.ExportRestores` | app/infrastructure/backup_restore.py:107-380 | there is a fault-free run from an export to a live database equal to the exported snapshot, with all sealed rows counted |
| `RestoreProgram.CheckRecords` | app/infrastructure/backup_restore.py:266-284 | the record loop accepts exactly the lists whose sealed records all re-hash |
| `RestoreProgram.CheckDump` | app/infrastructure/backup_restore.py:230-284 | format, hash spec, count and record checks of the dump, exactly |
| `RestoreProgram.FileSystem.HashArtifacts` | app/infrastructure/backup_restore.py:218-228 | passes exactly when both artifacts have their manifest digests |
| `RestoreProgram.FileSystem.Materialise` | app/infrastructure/backup_restore.py:300-374 | stages, checks and swaps; refuses exactly when the staged rows are not attested; never leaves the staging file |
| `RestoreProgram.FileSystem.RestoreBackup` | app/infrastructure/backup_restore.py:177-380 | without interference restores exactly the backups that pass every layer, leaves the live database alone otherwise, and refines the protocol |
| `Webhook.ExtractInvoicePeriod` | app/application/use_cases/handle_webhook.py:48-74 | the first usable line, else the subscription's period, else 30 or 365 days from the clock; never empty |
| `Webhook.HandleWebhookUseCase.constructor` | app/application/use_cases/handle_webhook.py:78-99 | starts without events, invoices or grants |
| `Webhook.HandleWebhookUseCase.Execute` | app/application/use_cases/handle_webhook.py:101-198 | one delivery, to its end or to a crash or exception after any write, is the specified change of all four stores |
| `WebhookOutcomes.PaymentIsCredited` | app/application/use_cases/handle_webhook.py:385-411 | a completed paid invoice for a known subscription leaves the plan's credits under its billing start unless on record, and the invoice on file as paid |
| `WebhookOutcomes.LineIsCredited` | app/application/use_cases/handle_webhook.py:482-521 | in particular, the first usable line decides the key of the credits granted |
| `WebhookOutcomes.FailureIsRecorded` | app/application/use_cases/handle_webhook.py:413-444 | a failed payment leaves the subscription past due and the invoice on file as open, and grants nothing |
| `WebhookOutcomes.UpdateIsStored` | app/application/use_cases/handle_webhook.py:241-283 | an update stores status and period; an unknown status changes nothing and is on record as a failure |
| `WebhookOutcomes.DeletionCancels` | app/application/use_cases/handle_webhook.py:349-383 | a deletion cancels the subscription and leaves invoices and allocations alone |
| `WebhookOutcomes.OthersAreSkipped` | app/application/use_cases/handle_webhook.py:171-198 | other event types and unknown subscriptions are marked processed and change nothing else |
| `WebhookOutcomes.InterruptedDelivery` | app/application/use_cases/handle_webhook.py:130-169 | a crash leaves the event open to a retry, an exception leaves it on record as failed with its message |
| `WebhookLaws.DeliverKeepsSettled` | app/application/use_cases/handle_webhook.py:115-127 | delivering a settled event changes nothing, and no delivery unsettles an event |
| `WebhookLaws.SettledForever` | app/application/use_cases/handle_webhook.py:115-169 | processed and failed records are absorbing over every run and trigger no handler write |
| `WebhookLaws.CompletionSettles` | app/application/use_cases/handle_webhook.py:144-169 | a delivery that completes settles its event |
| `WebhookLaws.InvoicesStayUnique` | app/application/use_cases/handle_webhook.py:446-480 | at most one invoice per provider invoice id, over every run with crashes between any two writes |
| `WebhookLaws.RunKeepsPriced` | app/application/use_cases/handle_webhook.py:482-534 | over every run allocation keys stay unique, amounts are the plan's, and the ledger holds exactly the granted period starts |
| `WebhookLaws.GrantedOncePerPeriod` | app/application/use_cases/handle_webhook.py:385-411 | the total granted to a subscription is its plan's credits times the number of distinct period starts granted |
| `WebhookLaws.GrantsOnlyOnPayment` | app/application/use_cases/handle_webhook.py:385-444 | allocations come from paid invoices only, to a known subscription with a tenant, at its plan's positive allowance |
| `WebhookLaws.LinePinsTheKey` | app/application/use_cases/handle_webhook.py:48-74 | all deliveries of an invoice with a usable line grant one and the same key, in any state and at any time |
| `WebhookLaws.ClockFreeExactly` | app/application/use_cases/handle_webhook.py:48-74 | the period start derived from one state of a subscription does not depend on the clock if and only if there is a usable line or a proper period |
| `WebhookPayouts.PaidOnce` | app/application/use_cases/handle_webhook.py:385-411 | over every run an event that pins its period is paid out at most once, and then its key is on record |
| `WebhookPayouts.PaidAtMostOnceExactly` | app/application/use_cases/handle_webhook.py:385-521 | an event is paid out at most once over every configuration, state and history, if and only if it has no grant to reach or a usable invoice line |
| `WebhookPayouts.DegeneratePeriodGrantsTwice` | app/application/use_cases/handle_webhook.py:482-521 | every other event is paid twice in some run: degenerate period, a crash and a redelivery a second later |
| `WebhookPayouts.MovedPeriodGrantsTwice` | app/application/use_cases/handle_webhook.py:241-283 | and also in a run with a proper subscription period throughout, which an update moves between two deliveries |
| `CreditService.RecoveryCreditService.SweepExpiredHolds` | app/domain/services/recovery_credit_service.py:745-778 | the loop is the sweep of SweepExactly: exact new holds, ledger and wallet, and no lapsed hold left |
| `CreditService.RecoveryCreditService.ResetPeriod` | app/domain/services/recovery_credit_service.py:696-743 | granted and consumed become zero, holds stay; the last entry expires what was available, at minus the live holds, unless nothing was or the period end is on record |
| `CreditService.RecoveryCreditService.AllocateCredits` | app/domain/services/recovery_credit_service.py:152-264 | a no-op exactly for a non-positive amount or a recorded key; otherwise the last entry books the amount, the wallet is enforced until the new end and holds it on top of what the period keeps |
| `CreditService.RecoveryCreditService.AttachSubscription` | app/domain/services/recovery_credit_service.py:266-314 | creates an unenforced empty wallet if there is none, and grants nothing |
| `CreditService.RecoveryCreditService.ReserveForExecution` | app/domain/services/recovery_credit_service.py:319-410 | unbilled, already billed, the plan's live hold, a new hold if a credit is available after the sweep, or refused: each if and only if it is due, with the exact new holds, wallet and ledger |
| `CreditService.RecoveryCreditService.FinalizeHold` | app/domain/services/recovery_credit_service.py:412-475 | charged if and only if a live hold of a never billed plan is billable, with hold, counters and entry; otherwise a live hold is released and its credit given back |
| `CreditService.RecoveryCreditService.ExpireUnused` | app/domain/services/recovery_credit_service.py:480-496 | returns and expires what is available after the sweep |
| `CreditService.RecoveryCreditService.DeactivateWallet` | app/domain/services/recovery_credit_service.py:498-526 | expires the remainder, returns how much that was, and stops enforcement |
| `CreditService.RecoveryCreditService.ApplyPlanUpgrade` | app/domain/services/recovery_credit_service.py:528-583 | grants exactly the positive allowance difference, once per key, with its entry; nothing on a downgrade |
| `CreditLaws.SweepExactly` | app/domain/services/recovery_credit_service.py:745-778 | the sweep expires exactly the live holds whose time has passed, leaves every other hold alone, and adds one release entry and one credit for each, in order |
| `CreditLaws.NothingLapsedIsLeft` | app/domain/services/recovery_credit_service.py:745-778 | after a sweep no live hold is past its time |
| `CreditLaws.DoKeepsInv` | app/domain/services/recovery_credit_service.py:152-778 | no operation repeats a ledger key, miscounts holds, or opens a second hold for a plan |
| `CreditLaws.BilledAtMostOnce` | app/domain/services/recovery_credit_service.py:412-475 | over every sequence of operations a plan is charged at most once, and then one of its holds is consumed |
| `CreditCharges.ChargedExactly` | app/domain/services/recovery_credit_service.py:412-475 | after every run a plan has a charge in the ledger if and only if some operation settled a live hold of it as billable |
| `CreditCharges.AllocateKeys` | app/domain/services/recovery_credit_service.py:152-264 | an allocation records its own key and, apart from releases and expiries, no other |
| `CreditLaws.ReservedIsHonest` | app/domain/services/recovery_credit_service.py:319-475 | the reserved counter is always the number of live holds |
| `CreditBalance.ResetDrift` | app/domain/services/recovery_credit_service.py:696-743 | by exactly how much a period reset separates the ledger from the wallet |
| `CreditBalance.BalanceKeptExactly` | app/domain/services/recovery_credit_service.py:152-778 | an operation keeps ledger and wallet in agreement if and only if it resets no period over a live hold or a recorded expiry |
| `CreditBalance.HoldAcrossRenewalDrifts` | app/domain/services/recovery_credit_service.py:696-743 | for every allowance, plan and periods, allocate, hold, renew: the ledger then claims more than the wallet has |
| `CreditAudit.UncleanTaints` | app/domain/services/recovery_credit_service.py:696-743 | an unclean operation leaves a wrong entry, or a drift that the next entry will show |
| `CreditAudit.TaintStays` | app/domain/services/recovery_credit_service.py:152-778 | no later operation removes the taint |
| `CreditAudit.RunBalancedExactly` | app/domain/services/recovery_credit_service.py:152-778 | after a run the ledger sums to a non-negative balance and every running balance is right, if and only if every operation of the run was clean |
| `CreditGrants.AllocKeyInjective` | app/application/use_cases/handle_webhook.py:516-521 | the key string of an allocation determines provider subscription and period start |
| `CreditGrants.LedgersAgree` | app/application/use_cases/handle_webhook.py:509-521 | over every run of deliveries the grants passed on to a tenant's wallet record exactly the keys that the run's ledger holds for that tenant |

## Left out

- Retention.RetentionCandidates: stated for lists in which no snapshot id repeats, which is what a dictionary of a tenant's snapshots provides.
- Retention.SortNewestFirst: stated for the same lists; ties between records of one id do not arise.
- SnapshotTypes.ChunkPayload: chunk ids and metadata are not modelled; they enter no computation of the snapshot engine.
- SnapshotService.SnapshotIntelligenceService.CaptureIncremental: recoverability of the result is stated under a snapshot id that is new to the tenant, since a repeated clock stamp would overwrite a record.
- Publish.StepKeepsInv: a transition system over operating-system calls; directory creation and the content of a partially written temporary file beyond "some bytes" are abstracted.
- Restore.StepKeepsInv: nobody but the restore writes to the staging file between its exclusive creation and the swap; before that, anybody may plant one, and the backup directory may change at any time.
- RestoreProgram.FileSystem.RestoreBackup: describes the restore without failing system calls; failures, crashes and tampering are in the transition system.
- Descendants.Collect: Python's recursion limit is not modelled.
- Webhook.HandleWebhookUseCase.Execute: deliveries are one after the other; the checkout handler, the plan-change step of a subscription update, wallet deactivation on cancellation, and signature checks are not modelled.
- WebhookLaws.GrantsOnlyOnPayment: speaks of allocations; the adjustment entry of a mid-period plan upgrade belongs to the plan-change step and is covered on the wallet's side by CreditService.RecoveryCreditService.ApplyPlanUpgrade.
- CreditService.RecoveryCreditService.FinalizeHold: every operation is one transaction; the recovery path after losing a race on a unique key is not modelled.
- Retention parameters: equality of their `repr` is equality of the ordered dictionary; infinite and not-a-number day counts and overflowing dates are not modelled.
- Time zones: instants are compared as such.
- The filesystem snapshot repository: the same logic behind JSON files, with a window of 10000 rows in its sweep.
- SHA-256, zlib, AES-GCM, JSON, SQLAlchemy and SQLite internals.
- Listing and content-hash lookup of snapshots, audit trail storage, evidence chain links: short queries.
- Leases, the recovery orchestrator, SDK clients, authentication, command-line rendering, migrations and web code.

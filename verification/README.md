# Verified model of the Lance ETL core

A Dafny model of the parts of this repository whose correctness is hard to see by reading one
function: the replay-safe ingest protocol, the canonical digests, the fuzz-workload generator and its
oracle, the specification lifecycle kept by database triggers, the index fleet, and the fast paths
that must equal simple ones. `dafny verify dfyconfig.toml` checks everything.

## What is proved

* **Ingest converges** (`ReplaySink`, `ReplayProgress`, `SafeMerge`, `Convergence`). Workers that
  validate, preflight, merge, retry, crash and verify are steps of one system. In every interleaving
  the stored rows only move forward, and once every terminal mutation was committed or acknowledged
  the dataset equals the in-order replay, payloads and tombstones included. When key and sequence
  determine the digest, a merge raises a conflict if and only if its own table repeats a key; when
  two finished merges disagree, a higher sequence is stored. A call without rivals on a good table
  succeeds, and for every sequence of snapshots some run delivers it. One call of
  `replay_safe_merge` is a run of that system.
* **Digests name what they hash** (`Utf8`, `Digest`, `Wire`, `Identity`, `Mutation`, `Spelling`). A
  decoder undoes the canonical encoding, which is prefix-free and equal exactly for values equal up
  to key order. The event preimage is injective; the source preimage is injective on the row set and
  blind to row order; code-point order and UTF-8 byte order agree, so collapse output is hashed in
  place. Collapse raises exactly on disagreeing rows and depends only on the set of rows. `Wire` and
  `Spelling` fix the bytes and the operation words literally.
* **The generated workload is what its oracle says** (`Naming`, `Workload`, `Ledger`, `Generator`,
  `GeneratedWorkload`). For every seed: one op per key and snapshot apart from the injected pair;
  the replay's live records are exactly the builder's `alive` keys at their current version.
  Retention removes exactly the two expiring bands if and only if the window is at most 518400
  seconds.
* **The pipeline end to end** (`EndToEnd`). Deliver a generated program, collapse each snapshot,
  merge in any interleaving: the dataset is the replayed oracle, row for row. Collapse raises for
  exactly the snapshot that carries the injected pair.
* **The completion marker** (`Completion`). Under any interleaving of finalizers, with retries and
  ambiguous commits, the window never decreases, every success is durable, and an update that went
  through always confirms. Left alone, a finalizer ahead of the marker advances it.
* **Specification lifecycle** (`Lifecycle`, `Overlap`, `Crossing`). A revision that left DRAFT keeps
  its content and its exact children and is never deleted, and no specification has two ACTIVE
  revisions: after every statement of every serial history, and at every commit however transactions
  overlap under READ COMMITTED with the row locks of the triggers. Each default specification has
  exactly one ACTIVE revision at every commit of a serial history, and is served at every commit of
  an overlapping one if and only if no two commits cross: one putting a source on a specification
  whose ACTIVE revision the other takes away since the check, neither providing another.
* **The index fleet** (`IndexReduce`, `IndexRun`, `IndexFleet`, `FtsPublish`). The reduction gives
  one outcome for every tree and order; an inverted index is committed exactly when no shard failed;
  a dataset is counted as failed exactly when an error was recorded or it stayed stale; a published
  name is never without an index.
* **Fast equals simple** (`Bvecs`, `TopK`, `Discovery`). The resumable stream, chunked nearest
  neighbours and fanned-out discovery equal their one-pass forms.

Contracts taken from outside the repository are written where they are used: Lance applies a
conditional merge atomically at its commit version, a refused commit changes nothing and a commit that
reports an error may have landed; `update_config` and `CreateIndex` are refused when what they touch
changed since it was read. SHA-256 is a parameter; freedom from collisions is a hypothesis about the
preimages at hand. Random draws are arbitrary choices.

Three promises hold of the code only under a condition; the model follows the code.

* A retention window above 518400 seconds also drops the stale-tombstone band
  (`RetentionDropsExactlyBands` gives the exact bound; the settings accept any window above 600).
* A validation error reported in a replan round is dropped when its index is already recorded
  (`LateValidationErrorIsDropped`), so "failed" is stated for recorded errors.
* No lock covers the deferred check of source defaults. A default is lost exactly when a commit crosses
  what was committed since its check (`Crossing.ServedExactlyUnlessCrossed`), as when one transaction
  adds a source while another retires its only ACTIVE revision (`Crossing.CollisionLosesDefault`).

## Model

| member | source | states |
|---|---|---|
| `Utf8.RoundTrip` | src/lance_etl/etl/digest.py:45-54 | decoding UTF-8 recovers the text, so equal encoded texts are equal texts |
| `Utf8.OrderPreserved` | src/lance_etl/etl/digest.py:208-219 | byte order of encoded strings is their code-point order, for all strings (section 1 of RFC 3629) |
| `Utf8.Layout` | src/lance_etl/etl/digest.py:45-54 | lead and continuation bytes lie in the ranges of section 4 of RFC 3629 for every character |
| `Digest.DecodeUndoesEncode` | src/lance_etl/etl/digest.py:79-155 | a decoder recovers every encodable nested value, mappings in key order, and leaves the bytes after it untouched |
| `Digest.PrefixFree` | src/lance_etl/etl/digest.py:119-155 | if two encodings followed by anything are the same bytes, the values and what follows are the same |
| `Digest.EncodingIsCanonical` | src/lance_etl/etl/digest.py:79-155 | two values have the same bytes if and only if they are equal up to the order of mapping keys, at any depth |
| `Digest.SameMeansSameCanon` | src/lance_etl/etl/digest.py:90-101 | equality up to key order, defined without sorting, is equality of the sorted forms |
| `Digest.EncodeSucceedsExactly` | src/lance_etl/etl/digest.py:16-155 | encoding raises exactly on integers outside 64 bits, non-finite floats, zoneless or out-of-range instants, unsupported types and oversized lengths, at any depth |
| `Digest.EncodeMapping` | src/lance_etl/etl/digest.py:79-101 | the sort-and-append loop produces the canonical encoding of the mapping, or its error |
| `Digest.EncodeSequence` | src/lance_etl/etl/digest.py:104-116 | the append loop produces the canonical encoding of the sequence, or its error |
| `Identity.EventPreimageInjective` | src/lance_etl/etl/digest.py:158-187 | event preimages are equal if and only if routing, record id, operation, instant and payload (up to key order) are |
| `Identity.SourcePreimageIsRowSet` | src/lance_etl/etl/digest.py:202-219 | source preimages are equal if and only if the row sets are: order never matters, contents always do |
| `Identity.CollapseOrderIsByteOrder` | src/lance_etl/etl/digest.py:208-219 | rows in code-point order are hashed in that order: the byte sort moves nothing |
| `Identity.PreimagesDisjoint` | src/lance_etl/etl/digest.py:180-219 | no event preimage is a source preimage |
| `Identity.CanonicalSource` | src/lance_etl/etl/digest.py:190-219 | the loop accepts exactly distinct ids with valid sequences and 32-byte digests, and then yields the canonical preimage |
| `Wire.ScalarBytes` | src/lance_etl/etl/digest.py:119-155 | the letter of each kind and the bytes of each scalar: two's complement, most significant byte first, and length-prefixed UTF-8 |
| `Wire.SequenceBytes` | src/lance_etl/etl/digest.py:104-116 | `l`, the number of items in eight bytes, and the encoded items one after the other |
| `Wire.MappingBytes` | src/lance_etl/etl/digest.py:79-101 | `m`, the number of entries in eight bytes, and each prefixed key with its item, keys sorted by their bytes |
| `Wire.EncodableBounds` | src/lance_etl/etl/digest.py:16-155 | what encodes, in plain bounds for scalars and by the items of a container |
| `Wire.EventBytes` | src/lance_etl/etl/digest.py:158-187 | the event preimage is its header and seven fields in the given order |
| `Wire.SourceRowBytes` | src/lance_etl/etl/digest.py:202-219 | each source row is the prefixed record id, eight bytes of sequence and the digest |
| `Wire.EventHeader` | src/lance_etl/etl/digest.py:12 | the event header spells its text letter by letter and ends in a zero byte |
| `Mutation.CollapseSnapshotMutations` | src/lance_etl/etl/mutation.py:118-164 | raises a conflict exactly when two rows of one key differ in digest; otherwise the output is strictly sorted, every entry comes from a row and every row is represented |
| `Mutation.ConflictIgnoresOrder` | src/lance_etl/etl/mutation.py:144-163 | conflicts depend on the set of rows alone |
| `Mutation.CollapseDeterministic` | src/lance_etl/etl/mutation.py:118-164 | without digest collisions, reordering and repeating rows leaves the collapse the same |
| `Mutation.TerminalSource` | src/lance_etl/etl/mutation.py:167-183 | rejects mixed targets, else hashes the canonical source preimage of the rows |
| `Mutation.CollapseFeedsDigestInPlace` | src/lance_etl/etl/mutation.py:164-183 | for one target the digest's sort leaves collapse output in place |
| `Spelling.SpelledExactly` | src/lance_etl/etl/mutation.py:78-95 | an operation deletes exactly when it is `delete` or `d`, upserts exactly when it is one of five words, in any case and between white space, and is invalid otherwise |
| `Spelling.CollapseOneRow` | src/lance_etl/etl/mutation.py:118-164 | a snapshot of one row becomes a tombstone or a live row of that record as its word says, or is refused |
| `Spelling.ConflictByColumns` | src/lance_etl/etl/mutation.py:144-163 | a snapshot conflicts exactly when two rows of one record differ in kind, instant or payload up to key order |
| `Spelling.CollapseInOrder` | src/lance_etl/etl/mutation.py:164 | collapse output comes by tenant, namespace, organization and record in code-point order |
| `ReplaySink.ExpectedKeyStates` | src/lance_etl/etl/replay_sink.py:149-173 | returns the incoming sequence and digest per key, or raises exactly when a key repeats |
| `ReplaySink.DetectSameSequenceConflicts` | src/lance_etl/etl/replay_sink.py:176-199 | raises exactly when some key has an equal stored sequence and another digest |
| `ReplaySink.VerifyReconciledStates` | src/lance_etl/etl/replay_sink.py:215-242 | passes exactly when every key is stored at a higher sequence, or level with the same digest |
| `ReplaySink.NoOpIsExact` | src/lance_etl/etl/replay_sink.py:202-212 | the merge is skipped if and only if it would change nothing |
| `ReplaySink.MergeAdvances` | src/lance_etl/etl/replay_sink.py:46-56 | a merge only ever moves a stored row to a higher sequence |
| `ReplaySink.MergeCovers` | src/lance_etl/etl/replay_sink.py:335-345 | after a merge no incoming line is ahead of what is stored |
| `ReplaySink.MergeInPieces` | src/lance_etl/etl/replay_sink.py:335-345 | merging two halves of a distinct-key table in turn is merging the whole |
| `ReplaySink.ReconciledMeansSettled` | src/lance_etl/etl/replay_sink.py:215-242 | verification passes if and only if every line is settled, a state later merges keep |
| `ReplaySink.StepKeepsInv` | src/lance_etl/etl/replay_sink.py:300-360 | every step of every worker keeps the invariant: stored rows come from the tables, committed lines are never behind, finished lines stay settled |
| `ReplaySink.RunKeepsInv` | src/lance_etl/etl/replay_sink.py:300-360 | the invariant and forward motion hold over every interleaved run |
| `ReplayProgress.SpawnExactly` | src/lance_etl/etl/replay_sink.py:59-104 | a call is refused exactly when some line has a negative window or sequence or is a tombstone with a payload, and raises a conflict exactly when a good table repeats a key |
| `ReplayProgress.UndisturbedCallSucceeds` | src/lance_etl/etl/replay_sink.py:300-360 | a call without rivals on a well-formed table that agrees with what is stored ends in success, every line taken in exactly when it is newer |
| `Convergence.NoFalseConflicts` | src/lance_etl/etl/replay_sink.py:149-242 | if key and sequence determine the digest, a worker ends in a conflict if and only if its own well-formed table repeats a key, however stale its preflight |
| `Convergence.RepeatedKeyRaises` | src/lance_etl/etl/replay_sink.py:164-172 | a table that repeats one line verbatim is coherent and still ends in a conflict |
| `Convergence.IncoherentLinesRaise` | src/lance_etl/etl/replay_sink.py:176-199 | the hypothesis is exact: two lines of one key and sequence with different digests can be merged so that the second raises |
| `Convergence.DisagreementIsNeverSilent` | src/lance_etl/etl/replay_sink.py:329-356 | two finished merges that disagree at one key and sequence imply a higher sequence is stored |
| `Convergence.OracleIsLastWriter` | bench/fuzz_workload.py:749-773 | the in-order replay holds, per key, the row of the last snapshot that mentions it |
| `Convergence.CaughtUpIsOracle` | src/lance_etl/etl/replay_sink.py:329-356 | a state that holds only snapshot lines and is behind none of them is the oracle's state |
| `Convergence.RunsConverge` | src/lance_etl/etl/replay_sink.py:300-360 | every run in which each terminal mutation was committed or acknowledged ends in the in-order replay |
| `Convergence.ReplayIsReachable` | src/lance_etl/etl/replay_sink.py:300-360 | for every well-formed sequence of snapshots there is such a run, and it ends in the in-order replay |
| `SafeMerge.ReplayTableChunks` | src/lance_etl/etl/replay_sink.py:363-390 | terminates for every size function; non-empty slices within the row limit, and the byte limit unless one row, concatenate to the table, and no slice stops before a limit makes it |
| `SafeMerge.ChunksMergeAsOne` | src/lance_etl/etl/replay_sink.py:363-390 | merging the slices in sequence equals merging the whole table |
| `SafeMerge.LineInSomeChunk` | src/lance_etl/etl/replay_sink.py:363-390 | every line of the table is in some slice |
| `SafeMerge.ReplayDataset.MergeAttempt` | src/lance_etl/etl/replay_sink.py:329-345 | one attempt adds at most its own table to the committed history, after others may have merged between read and commit |
| `SafeMerge.ReplayDataset.ReplaySafeMerge` | src/lance_etl/etl/replay_sink.py:300-360 | success means every line is settled at the reported version, a conflict means some line is not, a failure means some commit raised; a table is invalid exactly when it has a bad line, and such a table or one that repeats a key touches nothing; an undisturbed call on any other agreeing table succeeds and takes in exactly the newer lines; the whole call is a run of one worker of the system, ending in the phase of its result, with other merges in between |
| `Completion.CommitWithRetries` | src/lance_etl/telemetry.py:139-199 | calls the action until it does not conflict or the budget is spent, returns its last end, reports every conflict once |
| `Completion.RetriedExactly` | src/lance_etl/telemetry.py:86-111 | an exception is retried exactly when it is an OSError or RuntimeError whose message contains one of two phrases |
| `Completion.PayloadRoundTrip` | src/lance_etl/etl/completion.py:85-105 | a payload exists exactly for valid requests and reads back as its marker |
| `Completion.ParsedExactly` | src/lance_etl/etl/completion.py:35-61 | a marker is read exactly from two well-formed columns, none exactly from two absent ones, and anything else raises |
| `Completion.ReadDecides` | src/lance_etl/etl/completion.py:64-82 | a finalizer stops, raises or writes exactly as the stored window and digest compare with its own |
| `Completion.StepKeepsInv` | src/lance_etl/etl/completion.py:108-164 | every step keeps the marker history increasing and every finished finalizer's marker in it |
| `Completion.RunKeepsInv` | src/lance_etl/etl/completion.py:108-164 | the same over every run, and the history only grows |
| `Completion.MarkerNeverRegresses` | src/lance_etl/etl/completion.py:64-82 | over every run the stored window never decreases, and an unchanged window keeps its digest |
| `Completion.SuccessIsDurable` | src/lance_etl/etl/completion.py:137-164 | every success returns a window at least the requested one, with the requested digest when equal, and it stays in force or is superseded by a later window |
| `Completion.UpdateAlwaysConfirms` | src/lance_etl/etl/completion.py:159-164 | a finalizer whose update went through always confirms: the "not durable after commit" error is unreachable |
| `Completion.SuccessesAgree` | src/lance_etl/etl/completion.py:64-82 | two successes on one window hold the same marker |
| `Completion.MalformedMarkerBlocks` | src/lance_etl/etl/completion.py:35-61 | a partial or malformed marker is never overwritten and nobody succeeds over it |
| `Completion.UndisturbedFinalizerAdvances` | src/lance_etl/etl/completion.py:108-164 | a valid request ahead of the stored marker, or with none stored, is written and confirmed when nobody interferes |
| `Workload.Replay` | bench/fuzz_workload.py:749-773 | the loop computes the in-order replay through the cap, skipping the injected pair |
| `Workload.ApplyRetention` | bench/fuzz_workload.py:776-809 | keeps exactly the rows the two-clock predicate does not expire, and everything in off mode |
| `Workload.KeptExactly` | bench/fuzz_workload.py:776-809 | a live row is kept up to its window and a tombstone up to the longer of the window and thirty days, in microseconds |
| `Workload.SlipIn` | bench/fuzz_workload.py:749-773 | an op slipped in before ops of other keys updates exactly its own record |
| `Workload.SkipIn` | bench/fuzz_workload.py:761-764 | a skipped op leaves no trace wherever it stands |
| `Naming.FamiliesDisjoint` | bench/fuzz_workload.py:269-279 | born, absent and band ids never collide, for all ordinals |
| `Naming.KeyNamesDistinct` | bench/fuzz_workload.py:367-371 | padded decimal keys are distinct beyond the pad width too |
| `Naming.NamesSpelled` | bench/fuzz_workload.py:358-371 | every name is its prefix and the digits of its number, at least six of them for records |
| `Ledger.EmitOutcome` | bench/fuzz_workload.py:339-345 | emitting into any snapshot an op that nothing later touches changes exactly its own record in the full replay |
| `Ledger.EmitPending` | bench/fuzz_workload.py:630-643 | emitting a chosen op keeps the builder invariant and makes the op its record's final state |
| `Ledger.EmitDuplicate` | bench/fuzz_workload.py:610-628 | scheduling a redelivery into a later snapshot with the key reserved until then keeps the builder invariant |
| `Ledger.NextSnapshot` | bench/fuzz_workload.py:704-706 | the invariant carries over to the next snapshot |
| `Generator.UpdatePending` | bench/fuzz_workload.py:523-543 | an update of an eligible live key keeps every claim about the replay |
| `Generator.RevivePending` | bench/fuzz_workload.py:465-494 | a revival makes a dead key live at its bumped version |
| `Generator.DeletePending` | bench/fuzz_workload.py:598-608 | a delete makes an eligible live key a tombstone |
| `Generator.AbsentPending` | bench/fuzz_workload.py:590-597 | a delete of a never-born key adds a tombstone and nothing else |
| `Generator.PlantOrgKeeps` | bench/fuzz_workload.py:373-393 | planting one organization's bands adds its three populations at their ages and touches nothing else |
| `Generator.WorkloadBuilder.MaybeRevive` | bench/fuzz_workload.py:465-494 | chooses nothing and changes nothing, or a revival the invariant allows |
| `Generator.WorkloadBuilder.DoInsert` | bench/fuzz_workload.py:496-521 | a revival, or the next fresh key owned by the next organization in rotation, or nothing once the keyspace is used up |
| `Generator.WorkloadBuilder.DoUpdate` | bench/fuzz_workload.py:523-543 | an update of an unused, unreserved live key, or nothing exactly when there is none |
| `Generator.WorkloadBuilder.MaybeRedelete` | bench/fuzz_workload.py:545-571 | a second tombstone over an eligible dead key, or nothing |
| `Generator.WorkloadBuilder.DoDelete` | bench/fuzz_workload.py:573-608 | a re-delete, an absent-key delete, a live-key delete, or nothing when no live key is eligible |
| `Generator.WorkloadBuilder.AttemptOp` | bench/fuzz_workload.py:645-665 | the drawn kind or its fallbacks choose one op the invariant allows, or nothing when no insert and no live key is left |
| `Generator.WorkloadBuilder.MaybeDuplicate` | bench/fuzz_workload.py:610-628 | nothing, or the same upsert again in a later snapshot with the key reserved up to it; the builder invariant is kept |
| `Generator.WorkloadBuilder.FillSnapshot` | bench/fuzz_workload.py:630-643 | filling a snapshot with any number of attempts keeps the builder invariant and takes nothing back |
| `Generator.WorkloadBuilder.PlantRetentionBands` | bench/fuzz_workload.py:373-393 | every organization gets its three bands, reserved in every snapshot |
| `Generator.WorkloadBuilder.SeedOrgs` | bench/fuzz_workload.py:347-356 | every organization gets a live baseline key in the first snapshot |
| `Generator.WorkloadBuilder.ReserveConflictKey` | bench/fuzz_workload.py:395-407 | in conflict mode the smallest live key of the first organization is set aside after the first snapshot |
| `Generator.WorkloadBuilder.InjectConflict` | bench/fuzz_workload.py:409-422 | the update and the delete of the set-aside key go last in the final snapshot, at one version above its own |
| `GeneratedWorkload.CountsSplitEvenly` | bench/fuzz_workload.py:668-680 | the counts sum to the budget and differ by at most one |
| `GeneratedWorkload.GenerateWorkload` | bench/fuzz_workload.py:683-710 | the program is what the builder emitted, in snapshot order, each key once per snapshot apart from the pair, a baseline insert per organization, and it replays to the builder's bookkeeping |
| `GeneratedWorkload.OnlyThePairShares` | bench/fuzz_workload.py:683-710 | two ops share snapshot and key if and only if they are the injected pair |
| `GeneratedWorkload.ReplayMatchesBook` | bench/fuzz_workload.py:749-773 | the live records of the replay are exactly the alive keys at their current version, and every dead key is a tombstone |
| `GeneratedWorkload.RetentionDropsExactlyBands` | bench/fuzz_workload.py:776-809 | retention drops exactly the expired-live and ancient-tombstone bands if and only if the window is at most 518400 s |
| `GeneratedWorkload.PlantedAges` | bench/fuzz_workload.py:373-393 | every organization ends with a live row ten windows old, a tombstone five windows old and one forty days old, and everything else is at most five minutes old |
| `EndToEnd.ReplayIsLastOp` | bench/fuzz_workload.py:749-773 | a replayed record is the last op that touched it, and absent only when none did |
| `EndToEnd.GeneratedIsCalm` | bench/fuzz.py:801-809 | every organization through the final snapshot, and the conflict's victim through the one before, is free of conflicts |
| `EndToEnd.CollapsedTableStarts` | src/lance_etl/etl/replay_sink.py:317-328 | every collapsed snapshot is a well-formed table that the sink starts to merge |
| `EndToEnd.OraclesAgree` | bench/fuzz_workload.py:749-773 | collapsing each snapshot and overwriting in order is replaying the ops in order, row for row |
| `EndToEnd.PublishedIsReplayed` | src/lance_etl/etl/replay_sink.py:300-360 | for every generated workload and every interleaved run that delivered it, the organization's dataset is its replayed oracle |
| `EndToEnd.InjectedPairConflicts` | bench/fuzz_workload.py:409-422 | the injected pair makes collapse of the victim's final snapshot raise |
| `EndToEnd.ConflictsExactlyWhereInjected` | src/lance_etl/etl/mutation.py:118-164 | collapse raises for exactly one snapshot of one organization, and only in conflict mode |
| `Lifecycle.StatementKeepsConsistent` | migrations/versions/0001_control_plane.py:1118-1270 | every accepted row statement keeps uniqueness, check constraints, references, and no dataset on a DRAFT revision |
| `Lifecycle.StatementKeepsDatasetRefs` | migrations/versions/0001_control_plane.py:1214-1236 | what the assignment trigger buys: no accepted statement leaves a dataset on a missing or DRAFT revision |
| `Lifecycle.StatementKeepsFrozen` | migrations/versions/0001_control_plane.py:1142-1212 | no accepted row statement changes a frozen revision's content or children, or deletes it |
| `Lifecycle.EveryStatementIsSafe` | migrations/versions/0001_control_plane.py:1118-1270 | the same after every statement of a transaction, committed or not |
| `Lifecycle.HistoryIsSafe` | migrations/versions/0001_control_plane.py:1118-1270 | over every serial history of transactions: consistency, frozen rows kept, every default specification served |
| `Lifecycle.MidTransactionIsSafe` | migrations/versions/0001_control_plane.py:144-150 | in the middle of any transaction after any history no specification has two ACTIVE revisions |
| `Lifecycle.UnqueuedKeepsDefaults` | migrations/versions/0001_control_plane.py:1260-1268 | statements that queue no deferred trigger cannot leave a default specification unserved |
| `Lifecycle.ExactlyOneDefault` | migrations/versions/0001_control_plane.py:1238-1268 | at every commit of a serial history each source's default specification has exactly one ACTIVE revision |
| `Lifecycle.ReplacingTheActive` | migrations/versions/0001_control_plane.py:1160-1179 | retire-then-activate commits in one transaction; activate-first is refused by the partial unique index |
| `Lifecycle.ActivationKeepsContent` | migrations/versions/0001_control_plane.py:1160-1171 | what an accepted statement activates is the row that was drafted, every column but state and time, with the same children |
| `Lifecycle.TransitionByColumns` | migrations/versions/0001_control_plane.py:1158-1180 | the revision trigger, column by column: any DRAFT edit, activation and retirement of unchanged rows, nothing else |
| `Lifecycle.FrozenByColumns` | migrations/versions/0001_control_plane.py:1142-1212 | a revision that left DRAFT keeps every column but a later retirement, and each of its child rows |
| `Lifecycle.ConsistentByColumns` | migrations/versions/0001_control_plane.py:78-150 | unique numbers and digests per specification, one ACTIVE revision, activation times exactly off DRAFT, and references that resolve |
| `Lifecycle.ChildrenChangeExactly` | migrations/versions/0001_control_plane.py:1187-1212 | children are added and removed exactly while their revision is DRAFT |
| `Lifecycle.AssignedExactly` | migrations/versions/0001_control_plane.py:1214-1236 | a dataset is assigned a revision exactly when it is ACTIVE |
| `Lifecycle.DefaultsChangeExactly` | migrations/versions/0001_control_plane.py:1238-1268 | a source is added under any free name, and its default specification is what the last statement that set it says |
| `Lifecycle.DraftsAreFree` | migrations/versions/0001_control_plane.py:1142-1158 | a DRAFT revision with a free key, number and digest can always be added, edited and removed |
| `Lifecycle.SeedIsConsistent` | migrations/versions/0001_control_plane.py:29-36 | the seeded default specification is a good start |
| `Lifecycle.ControlPlane.EnforceSpecRevisionLifecycle` | migrations/versions/0001_control_plane.py:1142-1185 | lets through exactly DRAFT inserts, DRAFT deletes, DRAFT edits, activation and retirement without content changes |
| `Lifecycle.ControlPlane.EnforceDirectSpecChildLifecycle` | migrations/versions/0001_control_plane.py:1187-1212 | passes exactly when the old and the new owning revision, where they apply, are DRAFT |
| `Lifecycle.ControlPlane.EnforceSourceDefaultActive` | migrations/versions/0001_control_plane.py:1238-1258 | the nested search passes exactly when every source's default specification has an ACTIVE revision |
| `Lifecycle.ControlPlane.Execute` | migrations/versions/0001_control_plane.py:1118-1270 | a statement is refused exactly when a trigger or constraint forbids it, and a refused one changes nothing |
| `Lifecycle.ControlPlane.Transact` | migrations/versions/0001_control_plane.py:1260-1268 | a transaction takes effect as a whole or not at all, and the deferred check runs exactly when something queued it |
| `Overlap.StatementKeepsTx` | migrations/versions/0001_control_plane.py:1123-1236 | a statement of an open transaction keeps its view consistent and frozen rows kept, and locks the owners and references of what it writes |
| `Overlap.CommitKeepsTx` | migrations/versions/0001_control_plane.py:1130-1135 | another transaction's commit cannot break an open transaction that holds its locks: its view stays consistent and frozen rows stay kept |
| `Overlap.OverlapIsSafe` | migrations/versions/0001_control_plane.py:1118-1270 | over every interleaving of statements, checks, commits and aborts the committed rows are consistent, with at most one ACTIVE revision per specification, and frozen revisions keep content and children |
| `Overlap.OpenActivationKeepsContent` | migrations/versions/0001_control_plane.py:1160-1171 | inside an open transaction too, what is activated is what was drafted |
| `Overlap.AloneIsFree` | migrations/versions/0001_control_plane.py:1123-1236 | a transaction without rivals may run exactly what its view allows |
| `Crossing.LostExactlyWhenCrossed` | migrations/versions/0001_control_plane.py:1238-1258 | two disjoint sets of writes that each pass the deferred check lose a default together if and only if one puts a source on a specification whose ACTIVE revision the other takes away and neither writes another |
| `Crossing.StepLosesExactly` | migrations/versions/0001_control_plane.py:1260-1268 | a step leaves a default unserved if and only if it is a commit that crosses what was committed since its check |
| `Crossing.ServedExactlyUnlessCrossed` | migrations/versions/0001_control_plane.py:1238-1268 | over every interleaving, every default is served at every commit if and only if no commit crosses |
| `Crossing.CollisionLosesDefault` | migrations/versions/0001_control_plane.py:1260-1268 | crossing is possible: adding a source and retiring its only ACTIVE revision at the same time |
| `IndexReduce.Accumulator.MergeFrom` | src/lance_etl/indexing/runner.py:1260-1309 | the in-place merge of the left accumulator computes the merge function, the right one only read |
| `IndexReduce.ReduceReflects` | src/lance_etl/indexing/runner.py:1260-1309 | every tree's accumulator reflects the tally of its leaves: failures, specifications, stats, segments, counts |
| `IndexReduce.TreeIndependence` | src/lance_etl/indexing/runner.py:1260-1309 | any two trees over the same bag of results have the same outcome class, stats, bag of segments and count |
| `IndexReduce.FailureNeverCommits` | src/lance_etl/indexing/runner.py:1243-1309 | one failed shard or one specification mismatch leaves nothing to commit, in every tree |
| `IndexReduce.NegativeCountsBreakIt` | src/lance_etl/indexing/runner.py:1297-1309 | with negative counts the outcome would depend on the tree, so the law needs the counts of `build_one_shard` |
| `IndexReduce.SplitConserves` | src/lance_etl/indexing/segments.py:31-43 | sharding loses and repeats no fragment |
| `IndexReduce.SplitBalanced` | src/lance_etl/indexing/segments.py:31-43 | as many shards as asked for and as ids can fill, none empty, sizes at most one apart |
| `IndexReduce.FtsCommitsExactly` | src/lance_etl/indexing/runner.py:947-954 | an inverted index passes its count check and commits if and only if none of its shards failed |
| `IndexReduce.SegmentsCommitExactly` | src/lance_etl/indexing/runner.py:1312-1347 | any other index commits exactly the bag of its shards' segments when no shard failed, and reports otherwise, in every tree |
| `IndexRun.RoundFails` | src/lance_etl/indexing/runner.py:1141-1187 | a round adds a failure exactly when a plan, an unrecorded validation or a non-stale outcome carries an error |
| `IndexRun.RunFails` | src/lance_etl/indexing/runner.py:1649-1664 | after any rounds a dataset is failed if and only if some round recorded an error for it |
| `IndexRun.OutcomesAreRecorded` | src/lance_etl/indexing/runner.py:1350-1388 | every outcome that is not stale is in its dataset's record at the end of the run |
| `IndexRun.PlansAreRecorded` | src/lance_etl/indexing/runner.py:1141-1187 | errors, skips, versions and finished indexes that a plan of any round reports are in its dataset's record at the end of the run |
| `IndexRun.PendingShrinks` | src/lance_etl/indexing/runner.py:1350-1388 | pending datasets only shrink from round to round |
| `IndexRun.UniqueInOrder` | src/lance_etl/indexing/runner.py:1649 | unique datasets keep first-occurrence order |
| `IndexRun.LateValidationErrorIsDropped` | src/lance_etl/indexing/runner.py:1176-1179 | a validation error for an already recorded index is dropped |
| `IndexRun.LanceIndexer.CollectRoundSpecs` | src/lance_etl/indexing/runner.py:1141-1187 | folds plans into the records and returns exactly the buildable datasets |
| `IndexRun.LanceIndexer.RecordCommitOutcomes` | src/lance_etl/indexing/runner.py:1350-1388 | folds outcomes into the records and returns exactly the stale datasets |
| `IndexRun.LanceIndexer.RunRound` | src/lance_etl/indexing/runner.py:1555-1617 | one round's effect, and the next pending datasets sorted |
| `IndexRun.LanceIndexer.Run` | src/lance_etl/indexing/runner.py:1619-1712 | at most the allowed rounds; one record per unique dataset in order; failed if and only if an error was recorded or it was still pending |
| `IndexFleet.ShardFailureFailsDataset` | src/lance_etl/indexing/runner.py:1312-1388 | one failed shard or specification mismatch, in any reduction tree of any round, leaves the dataset counted as failed at the end of the run |
| `FtsPublish.LandingSwaps` | src/lance_etl/indexing/handlers.py:650-670 | a landing commit leaves exactly the new segment under the name, covering live fragments, and touches no other name |
| `FtsPublish.NeverUnindexed` | src/lance_etl/indexing/handlers.py:614-674 | once a name is indexed it is indexed after every step of every run |
| `FtsPublish.RepublishIsIdempotent` | src/lance_etl/indexing/handlers.py:650-674 | retrying after an ambiguous commit that landed changes nothing |
| `FtsPublish.UndisturbedPublishes` | src/lance_etl/indexing/handlers.py:614-674 | a publisher left alone leaves its segment as the only one of its name, or is stale exactly when a fragment it covers is gone |
| `Bvecs.DrainBvecsRecords` | bench/bigann_io.py:209-237 | writes exactly the rows of the complete records within the limit and returns the tail, or raises on a wrong header |
| `Bvecs.DrainAdvances` | bench/bigann_io.py:262-275 | draining the old tail plus new bytes continues the drain of the whole stream |
| `Bvecs.RebuildStreamState` | bench/bigann_io.py:240-275 | replaying the stored bytes rebuilds tail, count and output, or finds the wrong header |
| `Bvecs.StreamBvecsToU8bin` | bench/bigann_io.py:278-394 | from any prefix on disk a session keeps the disk sound; a finished artifact is the one-pass artifact; exhaustion means too few records arrived |
| `Bvecs.ConvertBvecsGz` | bench/bigann_io.py:432-456 | the one-pass conversion |
| `Bvecs.ArtifactBytes` | bench/bigann_io.py:432-456 | the artifact byte by byte: count and dimension in little-endian, then each record without its header; it exists exactly when every record announces 128 |
| `Bvecs.Transfer` | bench/bigann_io.py:278-394 | over any number of sessions, chunkings and crashes, an artifact that appears is the one-pass artifact, a wrong dimension is one the one-pass conversion reports, and one undisturbed last session suffices when enough records exist |
| `TopK.Compose` | bench/groundtruth.py:51-63 | the best of two bests is the best of both, whatever the ties |
| `TopK.SentinelsDrop` | bench/groundtruth.py:49-50 | no infinity sentinel survives once enough finite rows are seen |
| `TopK.QueryTopk` | bench/groundtruth.py:47-66 | for every chunk size the answer is sorted, holds some k nearest of all rows, and no sentinel |
| `TopK.BruteForceTopkScored` | bench/groundtruth.py:14-67 | the same for every query and every query block size |
| `TopK.ExactInDistances` | bench/groundtruth.py:47-66 | distances ascend, and every row left out is at least as far as every row returned |
| `TopK.DistancesAgree` | bench/groundtruth.py:43-67 | the distances do not depend on chunk sizes or on how ties fall |
| `TopK.PartialsSuffice` | bench/groundtruth.py:97-119 | a best of the per-slice bests is a best of all rows |
| `TopK.MergedIsExact` | bench/groundtruth.py:115-119 | the merged answer is an exact answer for all rows |
| `TopK.MergedInDistances` | bench/groundtruth.py:97-119 | the merged answer ascends by distance and then by id, and no row left out is nearer than a row returned |
| `TopK.MergedIsGlobal` | bench/groundtruth.py:97-119 | when no tie straddles a slice's cut the merged answer is the global answer by distance and id |
| `TopK.GlobalInDistances` | bench/groundtruth.py:97-119 | the global answer ascends by distance and id, ahead of everything it leaves out |
| `TopK.MergedIsGlobalExactly` | bench/groundtruth.py:97-119 | the merged answer is the global one if and only if every item a slice left out has k candidates not after it by distance and id |
| `TopK.TieAtCutShows` | bench/groundtruth.py:104-107 | a tie at a slice's cut can change the ids |
| `Discovery.RootOf` | src/lance_etl/cloud_storage.py:268-277 | the component scan finds the first dataset root of an entry, if any |
| `Discovery.ListDatasetPaths` | src/lance_etl/cloud_storage.py:241-278 | exactly the outermost `.lance` directories above or among the entries listed below a prefix |
| `Discovery.DriverWalk` | src/lance_etl/cloud_storage.py:330-331 | exactly the outermost `.lance` directories of the tree |
| `Discovery.FanOut` | src/lance_etl/cloud_storage.py:333-369 | the same, from one first-level listing and one listing per prefix |
| `Discovery.DiscoverDatasets` | src/lance_etl/cloud_storage.py:301-371 | the sorted URIs of exactly those directories, on either path |
| `Discovery.LanceNames` | src/lance_etl/cloud_storage.py:271-274 | exactly the names that end in `.lance` are dataset roots |
| `Discovery.RenderedInOrder` | src/lance_etl/cloud_storage.py:274-371 | a URI is the root and the path's components in order, joined by slashes |
| `Discovery.RenderedApart` | src/lance_etl/cloud_storage.py:274-371 | different paths have different URIs |
| `Discovery.SameDiscovery` | src/lance_etl/cloud_storage.py:329-371 | both paths return the same list |

## Left out

- Spark, HTTP, gRPC, telemetry sinks, command lines and reports: plumbing without a hard property.
- SHA-256 and zlib themselves: a parameter, and a function whose output only grows.
- Mapping keys that are not strings and text with lone surrogates: outside the value type of `Digest`.
- Doubles: finite ones are opaque 8-byte patterns, and rounding of distances is not modelled.
- SafeMerge.ReplayTableChunks: scales the row count in integers where the source divides floats; every clause holds for any scaled count the source could compute.
- Creating a missing dataset before the merge, and its schema check: a missing dataset is an empty one.
- Two stored rows of one key: the dataset is a map, so that error path of `load_key_states` cannot occur.
- Completion.PayloadRoundTrip: the decimal and hexadecimal text of the marker is abstracted; a config value is absent, malformed or read.
- ReplaySink.StepKeepsInv: the retry decision is an arbitrary flag of the step; which messages are retried is in `Completion`.
- `materialize_post_image` and dataset specifications of fields: one-branch facts.
- Generator.WorkloadBuilder.AttemptOp: the mix weights and probabilities are arbitrary choices.
- `fuzz_payload`: an arbitrary function of organization, record and version.
- Lifecycle.ControlPlane.Transact: runs alone; overlapping transactions are in `Overlap`. Savepoints are not modelled, and multi-row statements run row by row.
- Lifecycle.HistoryIsSafe: histories are serial; `Overlap.OverlapIsSafe` covers overlaps.
- Lifecycle.ExactlyOneDefault: histories are serial; `Crossing.ServedExactlyUnlessCrossed` covers overlaps.
- Lifecycle.EveryStatementIsSafe: speaks of row statements; `TRUNCATE` fires no row trigger and can empty a table, and dropping or disabling a trigger is outside the model too.
- Overlap.OverlapIsSafe: a statement that has to wait is not enabled yet, and a deadlock is an abort; PostgreSQL's choice of victim and snapshot isolation levels other than READ COMMITTED are not modelled.
- EndToEnd.PublishedIsReplayed: composes the reference collapse; production collapses in Spark with a conflict test and a drop of duplicates, and retention runs after it. Neither is part of the composition.
- EndToEnd.ConflictsExactlyWhereInjected: says where collapse raises; the blocked work rows and served versions that follow are not modelled.
- Column checks, unique ordinals and names of children, and the work and publication tables: the statement `Refused` stands for any of them.
- IndexRun.LanceIndexer.Run: the delta-bound pass and result counters after the rounds are not modelled; they neither add nor remove errors. One entry per index across rounds is not claimed.
- IndexReduce.FtsCommitsExactly: the reopening of the pinned version and the commit after the count check are not part of it.
- Segment commits and planning decisions of the index fleet: their answers are arbitrary.
- FtsPublish.NeverUnindexed: nobody drops an index by name; an explicit drop is outside the protocol.
- Bvecs.StreamBvecsToU8bin: the server is taken to honour the requested offset, as the code never checks it; corrupt gzip data is not modelled.
- TopK.BruteForceTopkScored: queries are answered one by one where numpy answers a block at once; `k` is at least one.
- Discovery.DiscoverDatasets: paths are component lists, and object stores that omit directory entries are not modelled.
- The centroid sidecar, the artifact cache and column-role updates: their validity rests on events outside the modelled code.
- The reconciler, state repository and maintenance jobs: not part of this model.

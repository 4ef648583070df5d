# A verified model of the Delta log sync engine

This project models, in Dafny, how a sync engine copies objects of a source into tables kept as a
Delta-style transaction log, and proves what every run of it keeps.

| file | what it models |
|---|---|
| `actions.dfy`, `replay.dfy` | log actions and the fold that turns a log into a table state; checkpoints as action lists |
| `keys.dfy`, `store.dfy`, `log.dfy` | the names of log entries, checkpoints and the marker; the object store; the transaction log |
| `table.dfy`, `checkpoint_policy.dfy`, `validation.dfy` | the table with its retried commit, snapshots, both checkpoint managers, checkpoint validation |
| `breaker.dfy`, `breaker_interleaving.dfy`, `sync_breaker.dfy` | the two circuit breakers, each called alone and by any number of interleaved callers |
| `executor.dfy`, `delay.dfy`, `classification.dfy` | retry loops, backoff arithmetic, which errors are retried |
| `schema.dfy`, `planner.dfy` | schema hash and diff; the full / incremental / skip decision and the schema version |
| `engine.dfy`, `sync_object.dfy`, `eras.dfy`, `sync_history.dfy` | the engine as a step machine over runs and crashes; `syncObject` itself, over the real table and store; which commits the saved state remembers, and what a history with gaps still tells |
| `recovery.dfy` | the persisted retry budget of one object behind the breaker it shares |
| `migration.dfy`, `drift.dfy`, `batching.dfy` | migration paths; the drift history merge; CSV row batching |

## How it fits together

A write to the store has three outcomes: it lands and is acknowledged, it is lost, or it lands and
still reports an error. Outcomes, clock readings and random factors are inputs, so every theorem
holds for all of them. Code that updates fields, slices or maps in place is a class or a method
with a loop, proved against a function of its inputs or of the old state; what is promised is then
proved about that function.

The centre is one chain. `DeltaTable.Commit` runs the retry executor around the breaker and leaves
a run of identical copies of the commit (`Commit`, `LogAfterIsOneRun`); such runs collapse under
replay (`AmbiguousRetriesAreHarmless`, `CommitMeansItsActions`); `ObjectSync.SyncObject` drives that
very table and is a path of the step machine whatever fails (`SyncObject`, `ObjectPathIsEnginePath`);
and every state the step machine reaches, with failures and crashes anywhere, is safe
(`EveryReachableStateIsSafe`), with the exact condition under which the saved state still knows
every commit (`RememberedIsCommittedExactlyWhen`).

## What the code does not promise

Where the code falls short of what its comments or names suggest, the model follows the code. The
exact condition is proved for each point and, where it is not obvious how to meet it, an input that
does.

- The breaker admits callers while it is open within its timeout: upgraders whose re-check fails and
  stale readers, and no others, and only after a failure recorded since they read
  (`EntersOpenExactlyWhen`, `EnteringOpenNeedsALateFailure`, `UpgraderMayEnterAnOpenBreaker`,
  `StaleReaderMayEnterAnOpenBreaker`).
- The sync package's breaker need not re-open after a failed probe: a success that arrives while it is
  open clears its count (`FailedProbeReopensExactlyWhen`, `ALateSuccessDisarmsTheProbe`).
- Further clean calls can exceed the retry budget exactly when the saved count has fallen behind the
  runs while budget is left, unless it is exceeded already
  (`StaysWithinBudgetExactlyWhen`), which a lost save, a final error or a failed load brings about
  (`CountFallsBehindExactlyWhen`, `AnUnsavedRunOverrunsTheBudget`, `AFailedLoadOverrunsTheBudget`).
- The state is saved at the end of a run only. A crash, a lost save, a failed load, or a sync given up
  after its commit landed unacknowledged can make it forget commits (`RememberedIsCommittedExactlyWhen`).
  The schema version is never too high, and it is too low exactly when a whole era of commits with
  one schema form was forgotten (`SchemaHistoryOfEveryRun`); an incremental sync can break the schema
  last committed in full only when that full sync was forgotten (`IncrementalPlansKeepTheFullSchema`).
  Both do happen (`ACrashForgetsACommit`, `AFailedLoadRestartsTheVersion`).
- Retries are harmless inside one `Commit` only: a whole sync run again after its commit landed
  unacknowledged adds its files a second time (`ARetriedSyncKeepsBothFiles`), and the table holds rows
  twice exactly when two landed syncs carry them (`RowsAreDuplicatedExactlyWhen`).
- Checkpoint validation compares paths, sizes and times only (`PassedCheckpointIsExactExactlyWhen`,
  `WronglyPassedStates`, `WronglyPassedStatistics`).
- A breaker's rejection is final only while the breaker's name contains none of the retryable
  patterns (`RejectionIsRetryableExactlyWhen`); that of the Delta table's breaker is.
- MaxDelay does not bound a policy without a backoff function (`CapHoldsExactlyWhen`).
- A saved drift history loaded into an empty memory is adopted as it is, and is stable under the
  next load exactly when it was already ascending and within the window
  (`AdoptedHistoryIsStableExactlyWhen`).
- A full sync removes nothing (`AddedFilesStayActive`).

## Model

| member | source | states |
|---|---|---|
| `LogReplay.ReplayIsLastWriterWins` | internal/storage/delta/table.go:155-174 | Action reconciliation, independently of the fold: a path is decided by the last Add or Remove naming it, protocol and metadata by the last action of their kind, everything else is untouched |
| `LogReplay.ReplayIdempotent` | internal/storage/delta/table.go:155-174 | replaying any action list a second time, from any state, changes nothing |
| `LogReplay.ReplayConcat` | internal/storage/delta/table.go:155-174 | replay of a log is replay of its front followed by its tail, from any state |
| `LogReplay.CopiesCollapse` | internal/storage/delta/table.go:93-134 | any positive number of copies of one commit, each with its own CommitInfo, has the effect of one; zero copies have none |
| `LogReplay.AmbiguousRetriesAreHarmless` | internal/storage/delta/table.go:93-134 | for every sequence of commits whose writes landed any number of times, the latest state equals that of the fault-free log in which each landed commit was written once |
| `LogReplay.ReplayWellKeyed` | internal/storage/delta/table.go:155-174 | every replayed file map files each Add under its own path |
| `LogReplay.CheckpointRoundTrip` | internal/storage/delta/checkpoint_manager.go:235-249 | a table state flattened into checkpoint actions, with its files in any order, replays to exactly that state |
| `LogReplay.CheckpointPlusTail` | internal/storage/delta/checkpoint_manager.go:235-249 | for every log and every checkpointed version c, checkpoint actions of Snapshot(c) in any file order followed by versions after c replay to the state of the whole log |
| `Keys.VersionKeyRoundTrip` | internal/storage/delta/log.go:65-106 | parsing the zero-padded 20-digit log entry name returns its version, for every version below 2^63 |
| `Keys.NamesInTheLog` | internal/storage/delta/log.go:104-106 | entries are named by exactly twenty digits and .json, checkpoints by the same and .checkpoint.json |
| `Keys.CheckpointKeyIsNoVersion` | internal/storage/delta/log.go:72-84 | a checkpoint file is never listed as a log entry, whatever its version |
| `Keys.MarkerKeyIsNoVersion` | internal/storage/delta/log.go:72-84 | `_last_checkpoint` is never listed as a log entry |
| `Keys.CheckpointKeyRoundTrip` | internal/storage/delta/checkpoint_manager.go:334-341 | extractVersionFromCheckpointKey inverts the checkpoint key format |
| `Keys.KeysAreApart` | internal/storage/delta/log.go:104-106 | log entries, checkpoints and the marker never share a key, and distinct versions never do |
| `ObjectStores.ObjectStore.Upload` | internal/storage/delta/log.go:14-21 | a write lands, is lost, or lands and still reports an error; it is reported good only when it landed |
| `ObjectStores.ObjectStore.List` | internal/storage/delta/log.go:14-21 | a listing holds every key under the prefix exactly once, in no promised order |
| `TransactionLogs.ListingFindsExactlyTheEntries` | internal/storage/delta/log.go:65-90 | in any directory of log entries, checkpoints and a marker, the versions found are exactly the written ones, each under one key |
| `TransactionLogs.TransactionLog.WriteVersion` | internal/storage/delta/log.go:38-52 | writes exactly the key of that version and no other |
| `TransactionLogs.TransactionLog.ReadVersion` | internal/storage/delta/log.go:55-62 | returns the stored actions of that version, or an error when the key is missing, is no log file, or the read fails |
| `TransactionLogs.TransactionLog.ListVersions` | internal/storage/delta/log.go:65-90 | whatever order the store lists keys in, the result is ascending (strictly, in a log directory) and holds exactly the written versions |
| `TransactionLogs.TransactionLog.LatestVersion` | internal/storage/delta/log.go:93-102 | the maximum written version, -1 exactly for an empty log |
| `TransactionLogs.InsertSorted` | internal/storage/delta/log.go:86-88 | one sorting step keeps order and membership |
| `TransactionLogs.AppendingAVersion` | internal/storage/delta/log.go:38-52 | writing version n of a log 0..n-1 gives the log 0..n: no gap, no extra |
| `TransactionLogs.OtherWritesKeepTheLog` | internal/storage/delta/log.go:65-90 | a write under any key that is no log entry leaves every version of the log as it was |
| `DeltaTables.DeltaTable.constructor` | internal/storage/delta/table.go:35-47 | a table over a stored log starts with three attempts, final rejections, and a fresh closed breaker |
| `DeltaTables.DeltaTable.Initialize` | internal/storage/delta/table.go:68-90 | writes version 0 exactly when the log is empty, never touches a log that has versions or a key outside it, and a new table is empty with protocol 1/2 and the given schema |
| `DeltaTables.InitialVersionMakes` | internal/storage/delta/table.go:68-90 | version 0 makes an empty table with protocol 1/2, parquet files and the given schema |
| `DeltaTables.DeltaTable.CommitOnce` | internal/storage/delta/table.go:94-124 | one attempt adds one copy of the commit, with its commit-info, exactly when its write landed, and succeeds only when acknowledged; a success is followed by the check of the manager: a due checkpoint that the store takes is there and replays to the new version, and the tail bound carries over; a failing checkpoint does not fail the commit |
| `DeltaTables.DeltaTable.CommitThroughBreaker` | internal/storage/delta/table.go:127-130 | a rejected attempt leaves the log and the marker alone; an admitted one is recorded with its outcome and, if it succeeds, followed by the check for a checkpoint |
| `DeltaTables.DeltaTable.CommitAttempt` | internal/retry/executor.go:16-56 | one turn of the loop: what the whole run comes to is what the rest comes to from here, or the run ends here with exactly this breaker, result and log |
| `DeltaTables.CommitTurn` | internal/retry/executor.go:16-56 | the same for the specification: a turn that is not retried ends the commit, any other hands the longer log and the recorded breaker on |
| `DeltaTables.DeltaTable.Commit` | internal/storage/delta/table.go:93-134 | the retried commit: the log is 0..n with no gap before and after, grows by one copy per landed write of the attempts the retry executor really makes, breaker and result are those of that executor; a success with a manager leaves the new version checkpointed when due, with the tail bound carried over, and whatever fails the marker never names a checkpoint that is not there or not right |
| `DeltaTables.CommitMeansItsActions` | internal/storage/delta/table.go:93-134 | however many writes of a commit landed unnoticed, the table state is the old one with the actions applied once if any landed, and unchanged otherwise |
| `DeltaTables.LogAfterIsOneRun` | internal/storage/delta/table.go:93-134 | the attempts of one commit leave a run of identical copies, the shape for which retries are harmless |
| `DeltaTables.CommitOnlyAppends` | internal/storage/delta/table.go:93-134 | a commit never changes an existing version |
| `DeltaTables.DeltaTable.Snapshot` | internal/storage/delta/table.go:138-177 | for every version that exists the snapshot is the replay of versions 0..v; it succeeds exactly when that version exists and the reads of 0..v (and, for the latest, the listing) do |
| `DeltaTables.DeltaTable.ReplayVersions` | internal/storage/delta/table.go:153-174 | the loop over versions computes the state of the prefix, in version order |
| `DeltaTables.DeltaTable.ReplayInto` | internal/storage/delta/table.go:159-173 | the in-place updates of protocol, metadata and file map are one replay of the version |
| `DeltaTables.DeltaTable.ActiveFiles` | internal/storage/delta/table.go:185-196 | exactly the paths of the files in the latest state, each once; it succeeds exactly when the log is not empty and the reads do |
| `DeltaTables.TimeTravelIsStable` | internal/storage/delta/table.go:68-177 | after Initialize and any commits, every Snapshot(v) has protocol and metadata, and later commits never change it |
| `DeltaTables.BuildCheckpointActions` | internal/storage/delta/checkpoint_manager.go:235-249 | lists protocol, metadata and every file of the snapshot exactly once, in whatever order the map is ranged over, and replays to the snapshot |
| `DeltaTables.WriteCheckpoint` | internal/storage/delta/checkpoint.go:49-88 | succeeds exactly when the version exists, its reads succeed and both writes are acknowledged; then the stored checkpoint replays to the snapshot of that version and the marker names it; succeed or fail, the log versions stay as they were and a right marker stays right |
| `DeltaTables.StoreCheckpoint` | internal/storage/delta/checkpoint.go:60-88 | the file is written before the marker: both acknowledged is success, and whatever fails a right marker stays right |
| `DeltaTables.CheckpointFileKeepsTheMarker` | internal/storage/delta/checkpoint.go:60-88 | writing a checkpoint file of any version, even the one the marker names, leaves the marker naming a checkpoint that replays to its version |
| `DeltaTables.CheckpointManager.GetLastCheckpoint` | internal/storage/delta/checkpoint_manager.go:384-391 | the stored marker, and none when it cannot be read |
| `DeltaTables.CheckpointManager.EstimateDataVolume` | internal/storage/delta/checkpoint_manager.go:136-153 | whole megabytes of the sizes of the files added after the marker up to the version, unreadable versions skipped |
| `DeltaTables.AddedBytesAreTheFiles` | internal/storage/delta/checkpoint_manager.go:136-153 | the estimated bytes are the total size of the files counted |
| `DeltaTables.ReadableAddsAre` | internal/storage/delta/checkpoint_manager.go:136-153 | the files counted are exactly those that some readable version after the marker added |
| `DeltaTables.CheckpointManager.ShouldCreateCheckpoint` | internal/storage/delta/checkpoint_manager.go:93-133 | the decision is the due rule applied to the stored marker and the volume added after it |
| `DeltaTables.CheckpointManager.CreateCheckpoint` | internal/storage/delta/checkpoint_manager.go:162-232 | succeeds exactly when the version exists, its reads succeed and both writes are acknowledged; then the stored checkpoint replays to the snapshot and the marker names its version; only a success is counted |
| `DeltaTables.CheckpointManager.MaybeCheckpoint` | internal/storage/delta/checkpoint_manager.go:75-90 | nothing is written for version 0 or when no checkpoint is due; a due one that the store takes is there and replays to the snapshot; one version after a bounded tail the tail is bounded again, whatever volumes were estimated; and it fails only when a due one could not be stored |
| `DeltaTables.LegacyCheckpointManager.MaybeCheckpoint` | internal/storage/delta/checkpoint.go:40-88 | on a positive multiple of ten it succeeds exactly when the checkpoint can be stored, and then that replays to the snapshot of that version; on every other version nothing is written |
| `CheckpointPolicy.BoundedReplayTail` | internal/storage/delta/checkpoint_manager.go:75-133 | over every run of successful checks on versions 0..n, the versions since the last checkpoint stay below Frequency in fixed mode and below 2*Frequency in adaptive mode, for all volume estimates |
| `CheckpointPolicy.FixedMarkerIsTheLastMultiple` | internal/storage/delta/checkpoint_manager.go:93-101 | in fixed mode the newest checkpoint is of the last multiple of Frequency |
| `CheckpointPolicy.AdaptiveMarkerMovesExactlyWhen` | internal/storage/delta/checkpoint_manager.go:93-133 | in adaptive mode the first checkpoint is of version Frequency, and the next comes exactly at the first version Frequency or more later whose volume reaches the threshold, or 50 versions or twice Frequency later |
| `CheckpointPolicy.ReplayTailWithSkips` | internal/storage/delta/checkpoint_manager.go:75-133 | when checks are skipped: in adaptive mode the tail after a checkpoint exceeds 2*Frequency by no more than the versions skipped in a row, and otherwise it passes only those multiples of Frequency that were skipped |
| `CheckpointPolicy.WithDefaults` | internal/storage/delta/checkpoint_manager.go:43-60 | positive settings are kept, a non-positive frequency becomes 10 and a non-positive threshold 128 |
| `CheckpointValidation.ValidateCheckpointStructure` | internal/storage/delta/validation.go:138-206 | no structure error exactly for one protocol, one metadata, no Remove, and Adds with a path and no negative size |
| `CheckpointValidation.WellStructuredExactlyWhen` | internal/storage/delta/validation.go:138-206 | well structured means exactly one protocol, exactly one metadata, no Remove, and only Adds with a path and a size |
| `CheckpointValidation.ValidateAgainstSnapshot` | internal/storage/delta/validation.go:209-260 | no snapshot error exactly when the listed files have the expected paths, sizes and modification times, both ways |
| `CheckpointValidation.ValidateFileIntegrity` | internal/storage/delta/validation.go:263-285 | fails exactly when some listed file is reported missing |
| `CheckpointValidation.ValidateCheckpoint` | internal/storage/delta/validation.go:58-135 | passes exactly when the file can be downloaded and parsed, holds one protocol, one metadata, no Remove and only Adds with a path, a size and an object in the store, and lists exactly the expected paths with their sizes and times |
| `CheckpointValidation.PassedCheckpointReplays` | internal/storage/delta/validation.go:58-260 | a checkpoint that passes replays to a table with a protocol, a metadata and the expected paths, sizes and modification times |
| `CheckpointValidation.OwnCheckpointPasses` | internal/storage/delta/validation.go:138-260 | a table's own checkpoint, in any file order, raises no snapshot error, and no structure error exactly when the table is initialised and its files have paths and no negative sizes |
| `CheckpointValidation.PassedCheckpointIsExactExactlyWhen` | internal/storage/delta/validation.go:58-260 | a checkpoint that passes replays to the expected state exactly when the protocol, the metadata and each file's path, partition values, data-change flag, statistics and tags agree too |
| `CheckpointValidation.ValidationIsBlindToTheRest` | internal/storage/delta/validation.go:209-260 | the checkpoint of a good state passes against every state with the same paths, sizes and times, and replays to it only if they are equal |
| `CheckpointValidation.WronglyPassedStates` | internal/storage/delta/validation.go:209-260 | a different protocol and a different metadata pass |
| `CheckpointValidation.WronglyPassedStatistics` | internal/storage/delta/validation.go:209-260 | so do different statistics of a file |
| `CircuitBreakers.CircuitBreaker.CanExecute` | internal/retry/circuit_breaker.go:86-112 | alone, a caller is admitted exactly when the breaker is not open within its timeout, and is then never facing an open breaker |
| `CircuitBreakers.CircuitBreaker.RecordResult` | internal/retry/circuit_breaker.go:115-141 | the whole new state after a recorded result |
| `CircuitBreakers.CircuitBreaker.Reset` | internal/retry/circuit_breaker.go:190-205 | the whole new state after a reset |
| `BreakerInterleaving.ReachableBreaker` | internal/retry/circuit_breaker.go:72-152 | for every interleaving of any callers: Closed exactly when failureCount < maxFailures, failureCount counts the failures since the last recovery, successCount + failureCount <= requestCount, and the two times are those of the last failure and the last success |
| `BreakerInterleaving.OnlyTheFourEdges` | internal/retry/circuit_breaker.go:115-152 | outside Reset only Closed to Open, Open to HalfOpen, HalfOpen to Open and HalfOpen to Closed are taken, each by the step and for the reason that owns it |
| `BreakerInterleaving.OpenHoldsForTheTimeout` | internal/retry/circuit_breaker.go:86-141 | no interleaving of late results, stale readers and waiting upgraders ends a cool-down before its timeout |
| `BreakerInterleaving.EntersOpenExactlyWhen` | internal/retry/circuit_breaker.go:86-112 | of all steps of all callers, exactly two admit a caller into a breaker open within its timeout: the lock of one whose re-check fails, and the decision of one that did not read Open |
| `BreakerInterleaving.EnteringOpenNeedsALateFailure` | internal/retry/circuit_breaker.go:86-141 | over every run, a caller enters an open breaker within its timeout only if a failure was recorded between its read and its admission |
| `BreakerInterleaving.StaleReaderMayEnterAnOpenBreaker` | internal/retry/circuit_breaker.go:86-94 | a run in which the decision of a stale reader does |
| `BreakerInterleaving.UpgraderMayEnterAnOpenBreaker` | internal/retry/circuit_breaker.go:95-107 | a run in which the lock of an upgrader does |
| `RetryExecutors.ExecuteWithRetryAndCircuitBreaker` | internal/retry/executor.go:16-110 | the loop makes exactly the calls, leaves exactly the breaker and ends exactly as its specification says |
| `RetryExecutors.CallsAreRecordedOnce` | internal/retry/executor.go:16-110 | whatever happens, every call is recorded once, in order, and calls stay within MaxAttempts |
| `RetryExecutors.RunEndsRight` | internal/retry/executor.go:16-110 | every run ends at the first attempt that is not retried after an uncancelled wait, that attempt says how, and the operation was called by exactly the admitted attempts up to it |
| `RetryExecutors.RoomyBreakerNeverMatters` | internal/retry/executor.go:60-110 | while fewer failures than the threshold can occur, a run behind a closed breaker succeeds exactly when one attempt does after retryable failures only |
| `RetryExecutors.AlwaysFailingOperation` | internal/retry/executor.go:101-110 | an operation that always fails retryably behind a closed breaker is called exactly min(MaxAttempts, maxFailures - failureCount) times, in its first attempts without a gap, each below the threshold, so that only the last can open the breaker |
| `RetryDelays.CalculateDelay` | internal/retry/policy.go:79-97 | computes the delay that the bounds below are about |
| `RetryDelays.DelayIsCapped` | internal/retry/policy.go:79-155 | with a backoff function, a delay is at least min(backoff, MaxDelay) and at most 1.1 MaxDelay, or MaxDelay without jitter |
| `RetryDelays.CapHoldsExactlyWhen` | internal/retry/policy.go:79-97 | the cap holds exactly when a backoff function is set or the base delay respects it: without one the base delay is used as it is |
| `RetryDelays.DelayGrows` | internal/retry/policy.go:79-155 | without jitter a later attempt never waits less |
| `RetryDelays.AskedGrows` | internal/retry/policy.go:110-155 | every backoff function asks for at least the base delay, and all but the randomised one never for less on a later attempt |
| `RetryDelays.AskedIs` | internal/retry/policy.go:110-155 | attempt n asks for exactly base times 2^(n-1), n, 1, 3^(n-1), or 1.5^(n-1) rounded down, by backoff function; the randomised one for its random part of a tenth more |
| `RetryDelays.JitterIsATenth` | internal/retry/policy.go:350-355 | jitter adds between nothing and a tenth |
| `RetryDelays.JitterIsExact` | internal/retry/policy.go:350-355 | jitter adds the random part of a tenth of the delay, rounded down |
| `RetryDelays.JitterComesLast` | internal/retry/policy.go:79-107 | the delay is capped first and jitter is added to the capped delay |
| `RetryDelays.Execute` | internal/retry/executor.go:16-56 | every attempt but the last failed retryably, how the loop ended says why the last one was the last, and the waits are those between the attempts made |
| `RetryDelays.TotalWaitIsBounded` | internal/retry/executor.go:39-52 | the waits of one Execute total at most (MaxAttempts - 1) times 1.1 MaxDelay |
| `ErrorClassification.StringContains` | internal/retry/policy.go:364-381 | true exactly when the second text occurs in the first |
| `ErrorClassification.ToLower` | internal/retry/policy.go:383-393 | lower-cases exactly the letters A to Z and nothing else |
| `ErrorClassification.DefaultRetryableFunc` | internal/retry/policy.go:160-196 | retryable exactly when the error is no context error and its message contains a pattern in any case |
| `ErrorClassification.CaseDoesNotMatter` | internal/retry/policy.go:160-196 | messages that differ only in the case of letters are classified alike |
| `ErrorClassification.QuotedPhrasesAreRetried` | internal/retry/policy.go:160-196 | a message that quotes one of the twelve phrases, whatever stands around it, is retryable |
| `ErrorClassification.RejectionIsRetryableExactlyWhen` | internal/retry/circuit_breaker.go:227-229 | a breaker's own rejection counts as retryable exactly when the breaker's name contains a retryable pattern, in every state |
| `ErrorClassification.DeltaRejectionsAreFinal` | internal/storage/delta/table.go:209-222 | the rejections of the Delta table breaker are never retried |
| `Schemas.Diff` | internal/schema/evolution.go:28-69 | lists exactly the fields that came, went or changed type; breaking exactly when one went or changed, no change exactly when there is none |
| `Schemas.BuildFieldMap` | internal/schema/schema.go:80-86 | the last field of a name is the one in the map |
| `Schemas.ComputeHash` | internal/schema/schema.go:52-67 | hashes the sorted canonical form of the fields |
| `Schemas.HashAgreesWithDiff` | internal/schema/evolution.go:28-69 | for distinct names, equal hashed forms exactly when Diff reports no change |
| `Schemas.HashIgnoresFieldOrder` | internal/schema/schema.go:52-67 | the hashed form ignores the order of the fields |
| `Schemas.AscendingIsUnique` | internal/schema/schema.go:52-67 | a name-sorted form is determined by its fields, so sorting makes it canonical |
| `Schemas.NonBreakingIsAnOrder` | internal/schema/evolution.go:28-84 | non-breaking is reflexive and transitive, and both ways round exactly when the schemas are equal up to field order and nullability |
| `Planners.Plan` | internal/sync/planner.go:54-130 | skips exactly the objects that a nonempty allow list leaves out; otherwise keeps the watermark field and schema of the description; no state is a full sync at version 1; a changed hash, and nothing else, makes the next version, and is a full sync exactly when the previous schema is unknown or lost a field or type |
| `Planners.SkippedExactlyWhen` | internal/sync/planner.go:60-66 | only an allow list that leaves the object out makes a plan to skip it |
| `SyncEngine.OnlyAllowedObjectsAreSynced` | internal/sync/engine.go:376-384 | in every reachable state each job is about an object that its allow list names, if there is one |
| `SyncEngine.LeftOutObjectsAreUntouched` | internal/sync/engine.go:376-384 | over any runs and crashes, an object that every allow list leaves out keeps its log, its files and its committed syncs |
| `Planners.PlanDecidesRight` | internal/sync/planner.go:74-129 | the change flag moves the version exactly when the canonical forms differ, and the sync is incremental exactly when the new schema breaks nothing |
| `Planners.PlannedSyncExtendsHistory` | internal/sync/planner.go:74-129 | a planned and committed sync keeps the history invariant: SchemaVersion is 1 plus the number of changes, and no incremental sync loses a field |
| `Planners.IncrementalsKeepTheFullSchema` | internal/sync/planner.go:74-129 | over any such history the current schema keeps every field, with its type, of the last full sync |
| `SyncEngine.EveryReachableStateIsSafe` | internal/sync/engine.go:575-665 | with failure or crash at any step: every path active in any snapshot was uploaded, the latest snapshot holds exactly the files of all landed commits, and the in-memory and saved DeltaVersion name the version that committed exactly that sync's files and TotalRecords rows, which every later snapshot holds unchanged |
| `SyncEngine.WatermarkMovesOnlyWithACommit` | internal/sync/engine.go:630-665 | within a run an object state changes only in the step that adopts the newest version, which is the commit of the files this very job staged, and its watermark, watermark field and sync time are those of that step and plan |
| `SyncEngine.StepKeepsStorageInv` | internal/sync/engine.go:540-685 | every single step, failing or not, keeps the storage invariant |
| `SyncEngine.AddedFilesStayActive` | internal/sync/engine.go:622-642 | full syncs emit no Removes: a file that any version added stays active, as it was added, in every later snapshot |
| `SyncEngine.SnapshotIsAllCommittedFiles` | internal/sync/engine.go:622-642 | the latest snapshot lists the files of all syncs whose commit ever landed, each once |
| `SyncHistories.RememberedIsCommittedExactlyWhen` | internal/sync/engine.go:258-530 | over any runs, crashes, lost saves and failed loads, the saved state remembers exactly the committed syncs if and only if every landed commit was adopted and saved before the next run and nothing saved since was built on a failed load; the same for the state in memory |
| `CommitEras.ChangesAreAllExactlyWhen` | internal/sync/planner.go:74-129 | whatever part of a history is kept, in order, the changes counted over it are never too many, and they are all of them exactly when every era has a kept sync |
| `CommitEras.LastFullIsKept` | internal/sync/planner.go:74-129 | a kept part that has the last full sync of the history has it as its own last full sync |
| `SyncHistories.SchemaHistoryOfEveryRun` | internal/sync/engine.go:258-530 | over every history of runs the saved SchemaVersion never exceeds 1 plus the committed schema changes, and equals it exactly when no era of the committed syncs (a maximal run of one schema form) was forgotten whole; its schema keeps the last full sync remembered, and the last one committed whenever that one is remembered |
| `SyncHistories.IncrementalPlansKeepTheFullSchema` | internal/sync/engine.go:540-665 | an incremental sync that reached its commit keeps every field, with its type, of the last full sync its state remembers, and of the last one committed whenever that one is remembered |
| `SyncHistories.ACrashForgetsACommit` | internal/sync/engine.go:499-501 | for any two schemas that break each other: after a crash between a commit and its save, version 1 is saved after two committed changes, and an increment breaks the last committed full sync |
| `SyncHistories.AFailedLoadRestartsTheVersion` | internal/sync/state.go:56-76 | after a failed load the version restarts at 1 although the committed schema changed |
| `SyncHistories.ARetriedSyncKeepsBothFiles` | internal/sync/engine.go:395-425 | a sync run again after its commit landed unacknowledged leaves both sets of files active and counts only the second |
| `SyncHistories.RowsAreDuplicatedExactlyWhen` | internal/sync/engine.go:622-642 | whatever the files contain, the table holds a row twice exactly when two syncs whose commits landed both carry it |
| `SyncHistories.SnapshotRowsAreAllCommittedRows` | internal/sync/engine.go:622-642 | in whatever order the files of the latest snapshot are listed, their rows are the sum over all landed syncs |
| `ObjectSyncs.ObjectSync.UploadBatch` | internal/sync/engine.go:615-627 | a batch is one upload step: its file is what the store gains, it is there before its Add is staged, and the log is untouched |
| `ObjectSyncs.ObjectSync.TakeBatch` | internal/sync/engine.go:571-628 | one turn of the loop: an empty batch is skipped; a strictly invalid one ends the sync with nothing written; a missing schema ends the process; any other is stored and becomes one Add with its name, size and rows, and the sync goes on exactly if that write was acknowledged |
| `ObjectSyncs.ObjectSync.UploadBatches` | internal/sync/engine.go:571-628 | the loop is a path of the step machine; it ends well exactly when every nonempty batch is valid, has a schema and is stored, and then staged one Add per nonempty batch, in order, and counted the rows extracted; otherwise the first bad batch says how it ends |
| `ObjectSyncs.ObjectSync.CommitFiles` | internal/sync/engine.go:636-642 | the retried commit is a path of write steps ending in Committed exactly when one of three attempts is acknowledged after retryable failures only, and then the newest version is the commit of exactly the staged files, marked with its operation |
| `ObjectSyncs.FreshCommitSucceeds` | internal/storage/delta/table.go:35-66 | behind the breaker of a newly opened table a commit succeeds exactly when one of its three attempts is acknowledged after retryable failures only |
| `ObjectSyncs.ObjectSync.AdoptCommit` | internal/sync/engine.go:644-679 | state update and legacy checkpoint are the update step; a failing checkpoint changes nothing in the log |
| `ObjectSyncs.ObjectSync.SyncObject` | internal/sync/engine.go:540-685 | whatever fails, one call is a path of the step machine; it succeeds exactly when the table opens, every nonempty batch is valid and stored, the extraction ends well and the commit (if there is one) is acknowledged in time; then the newest version commits exactly the Adds of the batches, the state has every field the source gives it, and every tenth version is checkpointed; a failure before the commit commits nothing |
| `ObjectSyncs.ObjectPathIsEnginePath` | internal/sync/engine.go:395-500 | a path of one object is a path of the whole engine, whatever the others do |
| `ObjectSyncs.CommitPath` | internal/storage/delta/table.go:93-134 | the attempts of a commit, as events, lead to Committed exactly on success and otherwise to a longer log at most |
| `SyncBreakers.SyncBreaker.CanExecute` | internal/sync/recovery.go:74-100 | admits unless open within the timeout; past it, on the state read back, whatever others did before the write lock and before the second read |
| `SyncBreakers.SyncBreaker.OthersRun` | internal/sync/recovery.go:57-128 | any sequence of write-locked sections of other callers has exactly their joint effect |
| `SyncBreakers.ReachableGuard` | internal/sync/recovery.go:57-128 | for every interleaving of callers at the lock boundaries, the breaker counts the failures since the last success and is closed only below its threshold |
| `SyncBreakers.FailedProbeReopensExactlyWhen` | internal/sync/recovery.go:103-116 | in every reachable state, a failed probe re-opens the half-open breaker exactly when the failures since the last success, itself included, reach the threshold |
| `SyncBreakers.ALateSuccessDisarmsTheProbe` | internal/sync/recovery.go:103-128 | that it need not: a run of four callers in which a success recorded while the breaker is open clears the count, and the failed probe leaves it half-open |
| `SyncBreakers.OneAtATimeClosedBelowThreshold` | internal/sync/recovery.go:57-128 | used by one caller at a time it is closed exactly below its threshold |
| `Recovery.RecoveryManager.ExecuteWithRetry` | internal/sync/recovery.go:257-387 | terminates with measure MaxRetries - Attempts and leaves exactly the ledger its specification says, whatever other objects do to the shared breaker; it is refused without a try exactly when the loaded count has reached the budget or it is too early, and a success whose delete lands leaves no attempts behind |
| `Recovery.RecoveryManager.TryOnce` | internal/sync/recovery.go:300-372 | one try: a success clears the saved count (if the delete lands) and the runs, a final error saves nothing, a rejection counts and is saved like a failure, and a failure is recorded with its time |
| `Recovery.SucceedsExactlyWhen` | internal/sync/recovery.go:287-325 | the loop succeeds exactly when its last try ran and succeeded, and that one clears the saved count if its delete lands |
| `Recovery.EarlierTriesFailed` | internal/sync/recovery.go:287-361 | every try before the last was rejected or failed with a retryable error |
| `Recovery.StopsOnlyFor` | internal/sync/recovery.go:287-372 | a loop that does not succeed was ended by a final error of its last try, the budget, the clock, or a cancelled wait |
| `Recovery.ASuccessRestoresTheBudget` | internal/sync/recovery.go:257-372 | after a success whose deletes land, a next call that keeps failing makes exactly MaxRetries tries, runs the operation as often if the breaker admits them all, and every later call is refused |
| `Recovery.RunsArePaidFor` | internal/sync/recovery.go:257-387 | over any calls, whatever fails, the operation ran since its last success at most once per saved or written-off attempt |
| `Recovery.AtMostMaxRetriesBetweenSuccesses` | internal/sync/recovery.go:257-387 | while loads and saves succeed and errors are retryable, it never runs more than MaxRetries times between two successes, the run that succeeds included, over all calls together |
| `Recovery.StaysWithinBudgetExactlyWhen` | internal/sync/recovery.go:257-387 | from every ledger and for every MaxRetries, all further clean calls that read one advancing clock stay within the budget exactly when it was not exceeded before and there is not budget left while the operation ran more often than the saved count says |
| `Recovery.CountFallsBehindExactlyWhen` | internal/sync/recovery.go:300-372 | which try makes the saved count fall behind: exactly one that ran and failed unsaved when the count was just covered, or one saved too low after a failed load |
| `Recovery.CallFallsBehindOnlyIf` | internal/sync/recovery.go:257-387 | a call after which the count is behind, though it was not before, had a failed load or made a try whose failure was not saved |
| `Recovery.AnUnsavedRunOverrunsTheBudget` | internal/sync/recovery.go:257-387 | from a new ledger and for every MaxRetries of at least 1, one failed try whose save was lost or whose error was final lets some clean continuation on one clock exceed the budget |
| `Recovery.AFailedLoadOverrunsTheBudget` | internal/sync/recovery.go:257-387 | the same for a failed load between two failed and saved tries, for every MaxRetries of at least 1 |
| `Migrations.MigrationEngine.RegisterMigration` | internal/migration/engine.go:63-76 | registers exactly positive, unused versions and leaves the others alone |
| `Migrations.MigrationEngine.CollectPath` | internal/migration/engine.go:158-184 | the path in either direction, or the first missing version on it; it succeeds exactly when every version between the ends, the upper end included, is registered |
| `Migrations.RegisteredExactlyWhen` | internal/migration/engine.go:158-184 | the path has no missing migration exactly when each version between the two ends is registered, in either direction |
| `Migrations.MigrationEngine.ExecuteMigrationPath` | internal/migration/engine.go:158-211 | on success the result is the last of a sequence of data in which each is the up (or down) of the one before by the migration of its place and passes its validation; it fails exactly at the first step that gives nothing or gives something refused; starts no step when a migration is missing, and then names the first missing one |
| `Migrations.WalkDecides` | internal/migration/engine.go:186-208 | any sequence of accepted steps that ends, ends as the migration along the path does: so success, a failed step and a refused step exclude each other |
| `Migrations.MigrationEngine.GetMigrationPlan` | internal/migration/engine.go:227-254 | lists exactly the migrations of the path, in order, which are those a successful execution runs |
| `Migrations.MigrationsCompose` | internal/migration/engine.go:158-211 | a to b and then b to c is a to c, forward and backward: same success, same data, and the same error when no migration is missing |
| `Migrations.ForwardThenBack` | internal/migration/engine.go:158-211 | when every Down inverts its Up, a successful forward path and a successful way back return the original data |
| `DriftHistory.MergeSnapshots` | internal/validation/drift_detector.go:571-603 | the result is the WindowSize newest seconds of both histories, strictly ascending, new entries overriding, a second missing only when newer ones fill the window |
| `DriftHistory.SortByTime` | internal/validation/drift_detector.go:586-593 | the in-place exchange sort permutes its array into time order |
| `DriftHistory.BringEarliest` | internal/validation/drift_detector.go:586-592 | one round of the sort brings the earliest remaining entry to its place and permutes the rest |
| `DriftHistory.KeyBySecond` | internal/validation/drift_detector.go:573-581 | the map holds exactly the last entry of every second |
| `DriftHistory.MergeIsDetermined` | internal/validation/drift_detector.go:571-603 | the entries and the window determine the merge |
| `DriftHistory.MergesInTurn` | internal/validation/drift_detector.go:571-603 | merging one batch and then another is merging everything at once: trimming early loses nothing |
| `DriftHistory.MergingAgainChangesNothing` | internal/validation/drift_detector.go:571-603 | merging the same new snapshots a second time changes nothing |
| `DriftHistory.AdoptedHistoryIsStableExactlyWhen` | internal/validation/drift_detector.go:536-545 | a saved history adopted unmerged is stable under the next load exactly when it was strictly ascending and within the window |
| `DriftHistory.TrimmingEarlyIsHarmless` | internal/validation/drift_detector.go:147-155 | appending to a trimmed history and trimming again keeps what trimming once would |
| `DriftHistory.DriftDetector.UpdateStats` | internal/validation/drift_detector.go:91-158 | each named field gains its snapshot within the window, whatever the order of the fields; every other history is unchanged |
| `DriftHistory.DriftDetector.LoadFieldSnapshots` | internal/validation/drift_detector.go:536-545 | known fields are merged, unknown ones adopted, the rest unchanged |
| `BulkResults.StreamBulkResults` | internal/connector/salesforce/bulk.go:107-168 | the batches sent are the first CSV rows in order; nothing empty, all but the last full; a read error or a refused batch drops at most what was waiting, and only those end it early |
| `BulkResults.BuildRecord` | internal/connector/salesforce/bulk.go:140-150 | builds the record the two lemmas below describe |
| `BulkResults.LastColumnWins` | internal/connector/salesforce/bulk.go:140-150 | the last column of a name gives its value, an empty value being nil |
| `BulkResults.RecordHoldsTheNamedColumns` | internal/connector/salesforce/bulk.go:140-150 | a record has exactly the named columns its row reaches |
| `BulkResults.RecordIsTheRow` | internal/connector/salesforce/bulk.go:140-150 | the record of a row has a value for exactly the columns that header and row both reach, and for each name that of the last such column |
| `BulkResults.CompleteDeliveryIsEveryRow` | internal/connector/salesforce/bulk.go:107-168 | a complete delivery is every CSV row, in order, in the fewest batches of that size |
| `BulkResults.CommittedRowsAreTheCsvRows` | internal/sync/engine.go:571-628 | when the engine syncs the batches of a complete delivery, the numRecords of the Adds it commits sum to the number of CSV rows, one Add per batch |

## Left out

- DeltaTables.DeltaTable.Commit: models one writer per table, because the code has no put-if-absent; its precondition leaves room below 2^63 for the attempts, where the code would wrap around; a policy or breaker set to nil, which makes it run once and unguarded, is not modelled.
- DeltaTables.DeltaTable.Snapshot: a requested version is below 2^63 and any negative one but -1 yields the empty table, as in the code; the time stamp of a snapshot is not part of the state.
- DeltaTables.CheckpointManager.MaybeCheckpoint: bounds the tail only when the marker could be read and the version is the next one; what the tail can be after a commit that landed unacknowledged, whose check is skipped, is stated on the policy alone (`ReplayTailWithSkips`).
- DeltaTables.CheckpointManager.CreateCheckpoint: validation inside it is only logged and compaction returns its input, so neither changes the result; the creation timeout is a failing write; the marker key is the log prefix followed by `_last_checkpoint`, as the engine builds it.
- DeltaTables.CheckpointManager.EstimateDataVolume: does not model 64-bit overflow of the summed sizes.
- CheckpointValidation.ValidateFileIntegrity: which files the store reports missing is an input, because the check looks the path up as a store key and the engine stores files under the layout key.
- SyncHistories.RowsAreDuplicatedExactlyWhen: assumes that one extraction yields no row in two of its own files; what a file contains is an input.
- BreakerInterleaving.ReachableBreaker: assumes maxFailures at least 1; with less, a breaker that never failed is Closed without being below its threshold.
- RetryExecutors.AlwaysFailingOperation: the waits are those of a single caller, each check coming at most the reset timeout after the failure before it.
- RetryDelays.DelayIsCapped: durations are unbounded integers and factors exact reals, so 64-bit overflow and floating-point rounding are not modelled; delays are assumed not negative.
- ErrorClassification.DefaultRetryableFunc: a character stands for a byte of the message; the S3 and API classifiers, which try more patterns first, are not modelled.
- Schemas.ComputeHash: SHA-256 and the JSON text are one uninterpreted function of the canonical form, assumed free of collisions only where a result says so; the order of two fields with the same name is that of insertion, which the code leaves open.
- Schemas.HashAgreesWithDiff: assumes distinct field names, because Diff and the hash treat duplicates differently.
- SyncEngine.EveryReachableStateIsSafe: the steps of different objects interleave, with the shared state map written atomically; Run's counters, consistency check, validation report and saved schema versions are not modelled.
- SyncHistories.SchemaHistoryOfEveryRun: assumes distinct field names and a hash without collisions; a plan without a schema never commits rows, because writing a batch without one ends the process, and the model has it so.
- SyncEngine.WatermarkMovesOnlyWithACommit: does not say that no source change is missed, because the watermark is the clock after the commit.
- Recovery.RecoveryManager.ExecuteWithRetry: the clock condition of a retry is a boolean input, so the spacing of retries is not modelled.
- Migrations.MigrationEngine.ExecuteMigrationPath: migrations are deterministic functions of the data; reading, wrapping, backing up and schema-checking the data around the path are not modelled.
- DriftHistory.MergeSnapshots: a negative window, which makes the code panic, is not modelled; the statistics inside a snapshot are opaque.
- BulkResults.StreamBulkResults: a negative batch size, which makes the code panic, is not modelled; CSV syntax is the reader's, whose rows and errors are inputs; cancellation is a number of batches taken before it.
- Deleting old checkpoints: the store has no delete, so the selection has no effect.
- Recovering a table from a checkpoint and the search for a valid one, which discards the structure errors it collects.
- Backup and restore, resuming failed syncs, batch execution and execution statistics, the breaker registry, drift scores, metrics, tracing, logging, notification and plugin loading.
- JSON, Parquet, S3 and UUID libraries: a stored file is its value, and new data file names are fresh.

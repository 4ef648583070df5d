/** The Delta table and its checkpoint managers over one log directory
    (internal/storage/delta/table.go, checkpoint_manager.go, checkpoint.go). */
module DeltaTables {
  import opened Wrappers
  import opened Actions
  import opened LogReplay
  import opened Keys
  import opened ObjectStores
  import opened TransactionLogs
  import opened CircuitBreakers
  import opened RetryExecutors
  import opened CheckpointPolicy

  datatype TableSnapshot = TableSnapshot(version: int, state: TableState)

  datatype TableError = TableError

  /** What the store does to the reads of one operation. */
  datatype ReadWorld = ReadWorld(listFails: bool, readFails: int -> bool)

  datatype CheckpointWorld = CheckpointWorld(
    markerReadFails: bool, volumeReadFails: int -> bool, snapshotReads: ReadWorld,
    checkpointWrite: WriteOutcome, markerWrite: WriteOutcome)

  /** What the world does to one attempt of a commit. */
  datatype CommitWorld = CommitWorld(
    readTime: int, lockTime: int, recordTime: int,
    listFails: bool, write: WriteOutcome, now: int,
    errorRetryable: bool, cancelled: bool, checkpoint: CheckpointWorld)

  function OutcomeOf(w: CommitWorld): Outcome {
    if w.listFails || !w.write.Acknowledged? then Fails(w.errorRetryable) else Succeeds
  }

  function AttemptsOf(world: int -> CommitWorld): int -> Attempt {
    i => Attempt(world(i).readTime, world(i).lockTime, world(i).recordTime, OutcomeOf(world(i)), world(i).cancelled)
  }

  /** The attempt put a version file into the store, acknowledged or not. */
  predicate Landed(w: CommitWorld) {
    !w.listFails && !w.write.Lost?
  }

  /** What one attempt leaves in the log: nothing, or one more copy of the commit. */
  function OneCopy(log: seq<seq<Action>>, actions: seq<Action>, operation: string, w: CommitWorld): seq<seq<Action>> {
    if Landed(w) then [actions + [NewCommitInfoAction(operation, |log| - 1, true, w.now)]] else []
  }

  /** The log after the given attempts ran, first to last. */
  function LogAfter(log: seq<seq<Action>>, actions: seq<Action>, operation: string, invoked: seq<int>, world: int -> CommitWorld)
    : seq<seq<Action>>
    decreases |invoked|
  {
    if invoked == [] then log
    else LogAfter(log + OneCopy(log, actions, operation, world(invoked[0])), actions, operation, invoked[1..], world)
  }

  /** The commit-infos of the copies that the attempts leave behind. */
  function LandedInfos(operation: string, length: nat, invoked: seq<int>, world: int -> CommitWorld): seq<CommitInfo>
    decreases |invoked|
  {
    if invoked == [] then []
    else
      var w := world(invoked[0]);
      if Landed(w) then [CommitInfo(w.now, operation, map[], length - 1, true)] + LandedInfos(operation, length + 1, invoked[1..], world)
      else LandedInfos(operation, length, invoked[1..], world)
  }

  /** What a commit comes to: the breaker, whether it succeeded, the last attempt that ran, and the log. */
  datatype Committing = Committing(breaker: Fields, succeeded: bool, last: int, log: seq<seq<Action>>)

  /** The attempt of the run that called the operation last; `before` if none did. */
  function LastOf(invoked: seq<int>, before: int): int {
    if invoked == [] then before else invoked[|invoked| - 1]
  }

  /** The rest of a commit from this attempt on, as the retry executor runs it. */
  function CommitFrom(b: Fields, attempt: int, last: int, policy: Policy, log: seq<seq<Action>>, actions: seq<Action>,
                      operation: string, world: int -> CommitWorld): Committing
  {
    var run := RunFrom(b, attempt, policy, AttemptsOf(world));
    Committing(run.breaker, run.end == Success, LastOf(run.invoked, last), LogAfter(log, actions, operation, run.invoked, world))
  }

  /** One turn of the commit loop: what the rest of the run comes to before the turn is what the
      remaining run comes to after it. */
  lemma CommitTurn(b: Fields, attempt: int, last: int, policy: Policy, log: seq<seq<Action>>, actions: seq<Action>,
                   operation: string, world: int -> CommitWorld)
    requires attempt <= policy.maxAttempts
    ensures var w := world(attempt);
            var (checked, admitted) := CheckAlone(b, w.readTime, w.lockTime);
            var after := if admitted then Record(checked, OutcomeOf(w).Succeeds?, w.recordTime) else checked;
            var longer := if admitted then log + OneCopy(log, actions, operation, w) else log;
            var succeeded := admitted && OutcomeOf(w).Succeeds?;
            var retried := !succeeded && (if admitted then w.errorRetryable else policy.rejectionRetryable)
                           && attempt != policy.maxAttempts && !w.cancelled;
            var ran := if admitted then attempt else last;
            CommitFrom(b, attempt, last, policy, log, actions, operation, world) ==
            if retried then CommitFrom(after, attempt + 1, ran, policy, longer, actions, operation, world)
            else Committing(after, succeeded, ran, longer)
  {
    var (checked, admitted) := CheckAlone(b, world(attempt).readTime, world(attempt).lockTime);
    var after := if admitted then Record(checked, OutcomeOf(world(attempt)).Succeeds?, world(attempt).recordTime) else checked;
    var rest := RunFrom(after, attempt + 1, policy, AttemptsOf(world)).invoked;
    var called := if admitted then [attempt] else [];
    CalledFirst(log, actions, operation, attempt, last, admitted, rest, world);
    CalledFirst(log, actions, operation, attempt, last, admitted, [], world);
    assert called + [] == called;
  }

  /** An attempt that runs before the rest leaves its copy before theirs. */
  lemma CalledFirst(log: seq<seq<Action>>, actions: seq<Action>, operation: string, attempt: int, last: int, admitted: bool, rest: seq<int>,
                    world: int -> CommitWorld)
    ensures LogAfter(log, actions, operation, (if admitted then [attempt] else []) + rest, world) ==
            LogAfter(if admitted then log + OneCopy(log, actions, operation, world(attempt)) else log, actions, operation, rest, world)
    ensures LastOf((if admitted then [attempt] else []) + rest, last) == LastOf(rest, if admitted then attempt else last)
  {
    if admitted {
      assert ([attempt] + rest)[1..] == rest;
    } else {
      assert [] + rest == rest;
    }
  }

  /** A commit only lengthens the log. */
  lemma {:induction false} CommitOnlyAppends(log: seq<seq<Action>>, actions: seq<Action>, operation: string, invoked: seq<int>,
                                        world: int -> CommitWorld)
    ensures log <= LogAfter(log, actions, operation, invoked, world)
    decreases |invoked|
  {
    if invoked != [] {
      CommitOnlyAppends(log + OneCopy(log, actions, operation, world(invoked[0])), actions, operation, invoked[1..], world);
    }
  }

  /** A commit is one run of identical copies: the shape for which retries are harmless. */
  lemma {:induction false} LogAfterIsOneRun(log: seq<seq<Action>>, actions: seq<Action>, operation: string,
                                            invoked: seq<int>, world: int -> CommitWorld)
    ensures LogAfter(log, actions, operation, invoked, world) ==
            log + Copies(CommitRun(actions, LandedInfos(operation, |log|, invoked, world)))
    decreases |invoked|
  {
    if invoked != [] {
      var next := log + OneCopy(log, actions, operation, world(invoked[0]));
      LogAfterIsOneRun(next, actions, operation, invoked[1..], world);
    }
  }

  /** What a whole `Commit` means for the table, however many of its writes landed unnoticed:
      nothing, or exactly one application of the actions. */
  lemma CommitMeansItsActions(log: seq<seq<Action>>, actions: seq<Action>, operation: string,
                              invoked: seq<int>, world: int -> CommitWorld)
    ensures StateOf(LogAfter(log, actions, operation, invoked, world)) ==
            if exists i :: 0 <= i < |invoked| && Landed(world(invoked[i]))
            then LogReplay.Replay(StateOf(log), actions) else StateOf(log)
  {
    var run := CommitRun(actions, LandedInfos(operation, |log|, invoked, world));
    LogAfterIsOneRun(log, actions, operation, invoked, world);
    CopiesCollapse(log, run);
    NothingLanded(operation, |log|, invoked, world);
  }

  lemma {:induction false} NothingLanded(operation: string, length: nat, invoked: seq<int>, world: int -> CommitWorld)
    ensures LandedInfos(operation, length, invoked, world) == [] <==>
            forall i :: 0 <= i < |invoked| ==> !Landed(world(invoked[i]))
    decreases |invoked|
  {
    if invoked != [] {
      NothingLanded(operation, length, invoked[1..], world);
      assert invoked == [invoked[0]] + invoked[1..];
    }
  }

  /** Versions 0..v of a log; nothing when v is negative. */
  function UpTo(log: seq<seq<Action>>, v: int): seq<seq<Action>>
    requires v < |log|
  {
    log[..if v < 0 then 0 else v + 1]
  }

  /** Only keys under the prefix may differ. */
  ghost predicate UntouchedOutside(before: map<string, Blob>, after: map<string, Blob>, prefix: string) {
    forall key {:trigger HasPrefix(key, prefix)} :: !HasPrefix(key, prefix) ==>
      (key in before <==> key in after) && (key in before ==> before[key] == after[key])
  }

  function InitialVersion(tableID: string, name: string, schemaString: string, now: int): seq<Action> {
    [NewProtocolAction(), NewMetadataAction(tableID, name, schemaString, now),
     NewCommitInfoAction("CREATE TABLE", -1, true, now)]
  }

  // ---------------------------------------------------------------- time travel

  predicate Initialised(s: TableState) {
    s.protocol.Some? && s.metadata.Some?
  }

  lemma {:induction false} ReplayStaysInitialised(s: TableState, actions: seq<Action>)
    requires Initialised(s)
    ensures Initialised(LogReplay.Replay(s, actions))
  {
    if actions != [] {
      ReplayStaysInitialised(s, actions[..|actions| - 1]);
    }
  }

  lemma {:induction false} RunsOnlyAppend(initial: seq<seq<Action>>, runs: seq<CommitRun>, k: nat)
    requires k <= |runs|
    ensures WrittenLog(initial, runs[..k]) <= WrittenLog(initial, runs)
    decreases |runs|
  {
    if k < |runs| {
      assert runs[..|runs| - 1][..k] == runs[..k];
      RunsOnlyAppend(initial, runs[..|runs| - 1], k);
    } else {
      assert runs[..k] == runs;
    }
  }

  /** A new table: readable by version 1 and writable by version 2 of the protocol, described by its
      schema, and empty. */
  lemma InitialVersionMakes(id: string, name: string, schemaString: string, now: int)
    ensures StateOf([InitialVersion(id, name, schemaString, now)]) ==
            TableState(Some(Protocol(1, 2)), Some(Metadata(id, name, "", Format("parquet", map[]), schemaString, [], map[], now)), map[])
  {
    var version := InitialVersion(id, name, schemaString, now);
    var p, m, c := version[0], version[1], version[2];
    assert Flatten([version]) == version by { assert Flatten([version][..0]) == []; }
    assert version == [p, m] + [c] && [p, m] == [p] + [m];
    assert LogReplay.Replay(EMPTY, [p]) == EMPTY.(protocol := Some(p.protocol)) by { assert [p][..0] == []; }
    ReplayConcat(EMPTY, [p], [m]);
    ReplayConcat(EMPTY, [p, m], [c]);
    assert [m][..0] == [] && [c][..0] == [];
  }

  /** Time travel is stable: whatever commits follow, and however ambiguously they are retried,
      every version that exists keeps its snapshot, and that snapshot is an initialised table. */
  lemma TimeTravelIsStable(id: string, name: string, schemaString: string, now: int, runs: seq<CommitRun>, k: nat, v: nat)
    requires k <= |runs|
    requires v < |WrittenLog([InitialVersion(id, name, schemaString, now)], runs[..k])|
    ensures var initial := [InitialVersion(id, name, schemaString, now)];
            && v < |WrittenLog(initial, runs)|
            && StateOf(UpTo(WrittenLog(initial, runs), v)) == StateOf(UpTo(WrittenLog(initial, runs[..k]), v))
            && Initialised(StateOf(UpTo(WrittenLog(initial, runs), v)))
  {
    var initial := [InitialVersion(id, name, schemaString, now)];
    var earlier, later := WrittenLog(initial, runs[..k]), WrittenLog(initial, runs);
    RunsOnlyAppend(initial, runs, k);
    assert UpTo(later, v) == UpTo(earlier, v);
    RunsOnlyAppend(initial, runs, 0);
    assert WrittenLog(initial, runs[..0]) == initial;
    assert UpTo(later, v) == initial + later[1..v + 1];
    FlattenConcat(initial, later[1..v + 1]);
    ReplayConcat(EMPTY, Flatten(initial), Flatten(later[1..v + 1]));
    InitialVersionMakes(id, name, schemaString, now);
    ReplayStaysInitialised(StateOf(initial), Flatten(later[1..v + 1]));
  }

  // ---------------------------------------------------------------- the checkpoint of one version

  /** Nothing keeps a checkpoint of this version from being stored. */
  ghost predicate CheckpointStores(entries: seq<seq<Action>>, version: int, w: CheckpointWorld) {
    && version < |entries| && (forall v :: 0 <= v <= version ==> !w.snapshotReads.readFails(v))
    && w.checkpointWrite.Acknowledged? && w.markerWrite.Acknowledged?
  }

  /** What the marker was read as. */
  function MarkerSeen(marker: Option<nat>, w: CheckpointWorld): Option<nat> {
    if w.markerReadFails then None else marker
  }

  predicate DueNow(config: Config, marker: Option<nat>, entries: seq<seq<Action>>, version: int, w: CheckpointWorld)
    requires Positive(config)
  {
    var seen := MarkerSeen(marker, w);
    version > 0 && Due(config, seen, VolumeMB(entries, seen, version, w.volumeReadFails), version)
  }

  /** What checking for a checkpoint after a version leaves in the store, given the marker before: a
      due one that can be stored is there and replays to the table, one that is not due leaves the
      marker, and the tail stays bounded. */
  ghost predicate Checkpointed(config: Config, marker: Option<nat>, after: map<string, Blob>, prefix: string,
                               entries: seq<seq<Action>>, version: int, w: CheckpointWorld)
    requires Positive(config) && 0 <= version
  {
    var due, stores := DueNow(config, marker, entries, version, w), CheckpointStores(entries, version, w);
    && (due && stores ==> HoldsCheckpoint(after, prefix, version, StateOf(UpTo(entries, version))))
    && (!due ==> MarkerOf(after, MarkerKey(prefix)) == marker)
    && ((!due || stores) && version > 0 && !w.markerReadFails && TailBounded(config, marker, version - 1) ==>
          TailBounded(config, MarkerOf(after, MarkerKey(prefix)), version))
  }

  /** The marker, if there is one, names a version whose checkpoint is stored and replays to the
      table at that version. */
  ghost predicate NamesACheckpoint(objects: map<string, Blob>, prefix: string, entries: seq<seq<Action>>) {
    var marker := MarkerOf(objects, MarkerKey(prefix));
    marker.Some? ==>
      marker.value < |entries| && HoldsCheckpoint(objects, prefix, marker.value, StateOf(UpTo(entries, marker.value)))
  }

  lemma VersionKeepsTheMarker(objects: map<string, Blob>, prefix: string, entries: seq<seq<Action>>, version: seq<Action>, blob: Blob)
    requires IsDirectory(prefix) && |entries| < INT64_LIMIT
    requires NamesACheckpoint(objects, prefix, entries)
    ensures NamesACheckpoint(objects[VersionKey(prefix, |entries|) := blob], prefix, entries + [version])
  {
    var marker := MarkerOf(objects, MarkerKey(prefix));
    KeysAreApart(prefix, |entries|, if marker.Some? then marker.value else 0);
    if marker.Some? {
      assert UpTo(entries + [version], marker.value) == UpTo(entries, marker.value);
    }
  }

  lemma CheckpointFileKeepsTheMarker(objects: map<string, Blob>, prefix: string, entries: seq<seq<Action>>, version: nat, actions: seq<Action>)
    requires IsDirectory(prefix) && version < |entries| <= INT64_LIMIT
    requires NamesACheckpoint(objects, prefix, entries) && Replay(EMPTY, actions) == StateOf(UpTo(entries, version))
    ensures NamesACheckpoint(objects[CheckpointKey(prefix, version) := CheckpointFile(actions)], prefix, entries)
  {
    var marker := MarkerOf(objects, MarkerKey(prefix));
    KeysAreApart(prefix, version, if marker.Some? then marker.value else 0);
  }

  lemma MarkerNamesTheCheckpoint(objects: map<string, Blob>, prefix: string, entries: seq<seq<Action>>, version: nat, actions: seq<Action>, n: int)
    requires IsDirectory(prefix) && version < |entries| <= INT64_LIMIT
    requires Replay(EMPTY, actions) == StateOf(UpTo(entries, version))
    ensures NamesACheckpoint(objects[CheckpointKey(prefix, version) := CheckpointFile(actions)][MarkerKey(prefix) := Marker(version, n)], prefix, entries)
  {
    KeysAreApart(prefix, version, version);
  }

  class DeltaTable {
    const log: TransactionLog
    const source: string
    const objectName: string
    var checkpointManager: CheckpointManager?
    var retryPolicy: Policy
    var circuitBreaker: CircuitBreaker

    /** The versions in the store, oldest first: entry v is version v. */
    ghost var entries: seq<seq<Action>>

    ghost predicate Valid()
      reads this, log.store
    {
      && HoldsLog(log.store.objects, log.logPrefix, entries)
      && (checkpointManager != null ==>
            checkpointManager.table == this && Positive(checkpointManager.config))
    }

    /** The version of the newest checkpoint, as the marker has it. */
    ghost function StoredMarker(): Option<nat>
      reads this, log.store
    {
      MarkerOf(log.store.objects, MarkerKey(log.logPrefix))
    }

    /** Whatever fails, the marker never names a checkpoint that is not there or not right. */
    ghost predicate MarkerRight()
      reads this, log.store
    {
      NamesACheckpoint(log.store.objects, log.logPrefix, entries)
    }

    /** The class invariant says what the log is for: versions 0..n-1, no gap, no extra. */
    constructor (store: ObjectStore, source: string, objectName: string, logPrefix: string, ghost entries: seq<seq<Action>>)
      requires HoldsLog(store.objects, logPrefix, entries)
      ensures Valid() && fresh(circuitBreaker)
      ensures log.store == store && log.logPrefix == logPrefix && this.entries == entries
      ensures this.source == source && this.objectName == objectName && checkpointManager == null
      ensures retryPolicy == Policy(3, false) && circuitBreaker.View() == Fresh(5, 120_000)
    {
      log := new TransactionLog(store, logPrefix);
      this.source := source;
      this.objectName := objectName;
      this.entries := entries;
      checkpointManager := null;
      retryPolicy := Policy(3, false);
      circuitBreaker := new CircuitBreaker("delta_operations", 5, 120_000);
      new;
    }

    /** What the log's latest version is, in terms of its entries. */
    method LatestEntry(fails: bool) returns (r: Result<int, StoreError>)
      requires Valid()
      ensures r.Err? <==> fails
      ensures r.Ok? ==> r.value == |entries| - 1
    {
      r := log.LatestVersion(fails);
      if r.Ok? {
        LatestOfHeldLog(log.store.objects, log.logPrefix, entries, r.value);
      }
    }

    /** Writes version 0 into an empty log; a log with any version is left alone. */
    method Initialize(schemaString: string, listFails: bool, write: WriteOutcome, now: int) returns (ok: bool)
      requires Valid()
      modifies this`entries, log.store
      ensures Valid()
      ensures entries == if !listFails && old(entries) == [] && !write.Lost?
                         then [InitialVersion(source + "_" + objectName, objectName, schemaString, now)]
                         else old(entries)
      ensures ok <==> !listFails && (old(entries) != [] || write.Acknowledged?)
      ensures old(entries) == [] && entries != [] ==>
                StateOf(entries) == TableState(Some(Protocol(1, 2)),
                                               Some(Metadata(source + "_" + objectName, objectName, "", Format("parquet", map[]),
                                                             schemaString, [], map[], now)),
                                               map[])
      ensures old(MarkerRight()) ==> MarkerRight()
      ensures UntouchedOutside(old(log.store.objects), log.store.objects, log.logPrefix)
    {
      var latest := LatestEntry(listFails);
      if latest.Err? {
        return false;
      }
      if latest.value >= 0 {
        return true;
      }
      InitialVersionMakes(source + "_" + objectName, objectName, schemaString, now);
      ok := WriteNext(0, InitialVersion(source + "_" + objectName, objectName, schemaString, now), write);
    }

    /** Writes the version after the latest one. */
    method WriteNext(version: int, actions: seq<Action>, write: WriteOutcome) returns (ok: bool)
      requires Valid() && version == |entries| < INT64_LIMIT
      modifies this`entries, log.store
      ensures Valid()
      ensures entries == old(entries) + (if write.Lost? then [] else [actions])
      ensures ok <==> write.Acknowledged?
      ensures StoredMarker() == old(StoredMarker())
      ensures old(MarkerRight()) ==> MarkerRight()
      ensures UntouchedOutside(old(log.store.objects), log.store.objects, log.logPrefix)
    {
      if MarkerRight() {
        VersionKeepsTheMarker(log.store.objects, log.logPrefix, entries, actions, LogFile(actions));
      }
      AppendingAVersion(log.store.objects, log.logPrefix, entries, actions);
      KeysAreApart(log.logPrefix, version, version);
      ok := log.WriteVersion(version, actions, write);
      if !write.Lost? {
        entries := entries + [actions];
      }
    }

    /** Reads the latest version and writes the next. */
    method AppendVersion(actions: seq<Action>, operation: string, w: CommitWorld) returns (r: Result<int, TableError>)
      requires Valid() && |entries| < INT64_LIMIT
      modifies this`entries, log.store
      ensures Valid()
      ensures entries == old(entries) + OneCopy(old(entries), actions, operation, w)
      ensures r.Ok? <==> OutcomeOf(w).Succeeds?
      ensures r.Ok? ==> r.value == |entries| - 1
      ensures r.Ok? ==> entries[r.value] == actions + [CommitInfoAction(CommitInfo(w.now, operation, map[], r.value - 1, true))]
      ensures StoredMarker() == old(StoredMarker())
      ensures old(MarkerRight()) ==> MarkerRight()
      ensures UntouchedOutside(old(log.store.objects), log.store.objects, log.logPrefix)
    {
      var latest := LatestEntry(w.listFails);
      if latest.Err? {
        return Err(TableError);
      }
      var newVersion := latest.value + 1;
      var ok := WriteNext(newVersion, actions + [NewCommitInfoAction(operation, latest.value, true, w.now)], w.write);
      if !ok {
        return Err(TableError);
      }
      r := Ok(newVersion);
    }

    /** A successful commit was followed by the manager's check of its version; a failed one, or a
        table without a manager, leaves the marker alone. */
    ghost predicate AfterCommit(succeeded: bool, marker: Option<nat>, w: CheckpointWorld)
      reads this, log.store, checkpointManager
    {
      if succeeded && checkpointManager != null then
        && Positive(checkpointManager.config) && entries != []
        && Checkpointed(checkpointManager.config, marker, log.store.objects, log.logPrefix, entries, |entries| - 1, w)
      else StoredMarker() == marker
    }

    /** One attempt of a commit: append a version, and only then maybe checkpoint. */
    method CommitOnce(actions: seq<Action>, operation: string, w: CommitWorld) returns (r: Result<int, TableError>)
      requires Valid() && |entries| < INT64_LIMIT
      modifies this`entries, log.store, checkpointManager
      ensures Valid()
      ensures entries == old(entries) + OneCopy(old(entries), actions, operation, w)
      ensures r.Ok? <==> OutcomeOf(w).Succeeds?
      ensures r.Ok? ==> r.value == |entries| - 1
      ensures r.Ok? ==> entries[r.value] == actions + [CommitInfoAction(CommitInfo(w.now, operation, map[], r.value - 1, true))]
      ensures AfterCommit(r.Ok?, old(StoredMarker()), w.checkpoint)
      ensures old(MarkerRight()) ==> MarkerRight()
      ensures UntouchedOutside(old(log.store.objects), log.store.objects, log.logPrefix)
    {
      r := AppendVersion(actions, operation, w);
      if r.Ok? {
        CheckpointAfterCommit(r.value, w.checkpoint);
      }
    }

    /** A failed checkpoint is logged and does not fail the commit. */
    method CheckpointAfterCommit(version: nat, w: CheckpointWorld)
      requires Valid() && version < |entries| && version < INT64_LIMIT
      modifies log.store, checkpointManager
      ensures Valid()
      ensures checkpointManager == null ==> log.store.objects == old(log.store.objects)
      ensures checkpointManager != null ==>
                Checkpointed(checkpointManager.config, old(StoredMarker()), log.store.objects, log.logPrefix, entries, version, w)
      ensures old(MarkerRight()) ==> MarkerRight()
      ensures UntouchedOutside(old(log.store.objects), log.store.objects, log.logPrefix)
    {
      if checkpointManager != null {
        var _ := checkpointManager.MaybeCheckpoint(version, w);
      }
    }

    /** One attempt behind the breaker. */
    method CommitThroughBreaker(actions: seq<Action>, operation: string, w: CommitWorld)
      returns (admitted: bool, r: Result<int, TableError>)
      requires Valid() && |entries| < INT64_LIMIT && w.readTime <= w.lockTime
      modifies this`entries, log.store, circuitBreaker, checkpointManager
      ensures Valid()
      ensures var (checked, ok) := CheckAlone(old(circuitBreaker.View()), w.readTime, w.lockTime);
              && admitted == ok
              && circuitBreaker.View() == if ok then Record(checked, OutcomeOf(w).Succeeds?, w.recordTime) else checked
      ensures entries == if admitted then old(entries) + OneCopy(old(entries), actions, operation, w) else old(entries)
      ensures r.Ok? <==> admitted && OutcomeOf(w).Succeeds?
      ensures r.Ok? ==> r.value == |entries| - 1
      ensures AfterCommit(r.Ok?, old(StoredMarker()), w.checkpoint)
      ensures old(MarkerRight()) ==> MarkerRight()
      ensures UntouchedOutside(old(log.store.objects), log.store.objects, log.logPrefix)
    {
      admitted := circuitBreaker.CanExecute(w.readTime, w.lockTime);
      if !admitted {
        return false, Err(TableError);
      }
      r := CommitOnce(actions, operation, w);
      circuitBreaker.RecordResult(r.Ok?, w.recordTime);
    }

    /** One turn of the retry loop: either the rest of the run goes on from here, or it ends here. */
    method CommitAttempt(attempt: int, ghost last: int, actions: seq<Action>, operation: string, world: int -> CommitWorld)
      returns (again: bool, r: Result<int, TableError>, ghost ran: int)
      requires Valid() && |entries| < INT64_LIMIT
      requires attempt <= retryPolicy.maxAttempts && Timely(AttemptsOf(world)(attempt))
      modifies this`entries, log.store, circuitBreaker, checkpointManager
      ensures Valid() && |entries| <= |old(entries)| + 1
      ensures again ==> attempt < retryPolicy.maxAttempts
      ensures var before := CommitFrom(old(circuitBreaker.View()), attempt, last, retryPolicy, old(entries), actions, operation, world);
              before == if again then CommitFrom(circuitBreaker.View(), attempt + 1, ran, retryPolicy, entries, actions, operation, world)
                        else Committing(circuitBreaker.View(), r.Ok?, ran, entries)
      ensures r.Ok? ==> r.value == |entries| - 1 && !again
      ensures AfterCommit(r.Ok?, old(StoredMarker()), world(ran).checkpoint)
      ensures old(MarkerRight()) ==> MarkerRight()
      ensures UntouchedOutside(old(log.store.objects), log.store.objects, log.logPrefix)
    {
      var w := world(attempt);
      CommitTurn(circuitBreaker.View(), attempt, last, retryPolicy, entries, actions, operation, world);
      var admitted;
      admitted, r := CommitThroughBreaker(actions, operation, w);
      ran := if admitted then attempt else last;
      if r.Ok? {
        return false, r, ran;
      }
      again := (if admitted then w.errorRetryable else retryPolicy.rejectionRetryable)
               && attempt != retryPolicy.maxAttempts && !w.cancelled;
    }

    /** The retried commit.  The log grows by one identical copy of the actions per write that
        landed, no matter which of them were acknowledged, and the breaker and the number of
        attempts are those of the retry executor. */
    method Commit(actions: seq<Action>, operation: string, world: int -> CommitWorld) returns (r: Result<int, TableError>)
      requires Valid()
      requires |entries| + (if retryPolicy.maxAttempts > 0 then retryPolicy.maxAttempts else 0) <= INT64_LIMIT
      requires forall i :: Timely(AttemptsOf(world)(i))
      modifies this`entries, log.store, circuitBreaker, checkpointManager
      ensures Valid()
      ensures var run := RunFrom(old(circuitBreaker.View()), 1, retryPolicy, AttemptsOf(world));
              && circuitBreaker.View() == run.breaker
              && entries == LogAfter(old(entries), actions, operation, run.invoked, world)
              && (r.Ok? <==> run.end == Success)
              && AfterCommit(r.Ok?, old(StoredMarker()), world(LastOf(run.invoked, 0)).checkpoint)
      ensures old(MarkerRight()) ==> MarkerRight()
      ensures r.Ok? ==> r.value == |entries| - 1
      ensures UntouchedOutside(old(log.store.objects), log.store.objects, log.logPrefix)
    {
      ghost var last;
      r, last := CommitLoop(actions, operation, world);
    }

    /** The attempts of a commit, one after the other. */
    method CommitLoop(actions: seq<Action>, operation: string, world: int -> CommitWorld)
      returns (r: Result<int, TableError>, ghost last: int)
      requires Valid()
      requires |entries| + (if retryPolicy.maxAttempts > 0 then retryPolicy.maxAttempts else 0) <= INT64_LIMIT
      requires forall i :: Timely(AttemptsOf(world)(i))
      modifies this`entries, log.store, circuitBreaker, checkpointManager
      ensures Valid()
      ensures CommitFrom(old(circuitBreaker.View()), 1, 0, retryPolicy, old(entries), actions, operation, world) ==
              Committing(circuitBreaker.View(), r.Ok?, last, entries)
      ensures r.Ok? ==> r.value == |entries| - 1
      ensures AfterCommit(r.Ok?, old(StoredMarker()), world(last).checkpoint)
      ensures old(MarkerRight()) ==> MarkerRight()
      ensures UntouchedOutside(old(log.store.objects), log.store.objects, log.logPrefix)
    {
      ghost var length, before, right := |entries|, log.store.objects, MarkerRight();
      ghost var target := CommitFrom(circuitBreaker.View(), 1, 0, retryPolicy, entries, actions, operation, world);
      var attempt := 1;
      last := 0;
      while attempt <= retryPolicy.maxAttempts
        invariant Valid() && 1 <= attempt && |entries| <= length + attempt - 1
        invariant CommitFrom(circuitBreaker.View(), attempt, last, retryPolicy, entries, actions, operation, world) == target
        invariant NotCommitted(before, right)
        decreases retryPolicy.maxAttempts - attempt
      {
        assert Timely(AttemptsOf(world)(attempt));
        var again;
        again, r, last := CommitAttempt(attempt, last, actions, operation, world);
        if !again {
          return;
        }
        attempt := attempt + 1;
      }
      r := Err(TableError);
    }

    /** What failed attempts leave alone. */
    ghost predicate NotCommitted(before: map<string, Blob>, right: bool)
      reads this, log.store
    {
      && StoredMarker() == MarkerOf(before, MarkerKey(log.logPrefix)) && (right ==> MarkerRight())
      && UntouchedOutside(before, log.store.objects, log.logPrefix)
    }

    /** Replays the log up to a version; -1 asks for the latest. */
    method Snapshot(version: int, w: ReadWorld) returns (r: Result<TableSnapshot, TableError>)
      requires Valid() && version < INT64_LIMIT
      ensures var v := if version == -1 then |entries| - 1 else version;
              && (r.Ok? ==> v < |entries| && r.value == TableSnapshot(v, StateOf(UpTo(entries, v))))
              && (r.Ok? <==> && v < |entries| && (forall i :: 0 <= i <= v ==> !w.readFails(i))
                             && (version == -1 ==> !w.listFails && v >= 0))
    {
      var target := version;
      if version == -1 {
        var latest := log.LatestVersion(w.listFails);
        if latest.Err? {
          return Err(TableError);
        }
        LatestOfHeldLog(log.store.objects, log.logPrefix, entries, latest.value);
        if latest.value < 0 {
          return Err(TableError);
        }
        target := latest.value;
      }
      var state := ReplayVersions(target, w.readFails);
      if state.Err? {
        return Err(TableError);
      }
      r := Ok(TableSnapshot(target, state.value));
    }

    /** The outer loop of `Snapshot`: versions 0..target, in order. */
    method ReplayVersions(target: int, readFails: int -> bool) returns (r: Result<TableState, TableError>)
      requires Valid() && target < INT64_LIMIT
      ensures r.Ok? ==> target < |entries| && r.value == StateOf(UpTo(entries, target))
      ensures r.Ok? <==> target < |entries| && forall i :: 0 <= i <= target ==> !readFails(i)
    {
      var protocol: Option<Protocol>, metadata: Option<Metadata>, files: map<string, Add> := None, None, map[];
      var v := 0;
      while v <= target
        invariant 0 <= v <= |entries|
        invariant v <= target + 1 || v == 0
        invariant TableState(protocol, metadata, files) == StateOf(entries[..v])
        invariant forall i :: 0 <= i < v ==> !readFails(i)
        decreases target - v
      {
        var actions := ReadHeld(v, readFails(v));
        if actions.Err? {
          return Err(TableError);
        }
        StateOfSnoc(entries[..v], actions.value);
        assert entries[..v] + [actions.value] == entries[..v + 1];
        protocol, metadata, files := ReplayInto(protocol, metadata, files, actions.value);
        v := v + 1;
      }
      r := Ok(TableState(protocol, metadata, files));
    }

    /** The inner loop of `Snapshot`: one version's actions, in order, into the three fields. */
    static method ReplayInto(protocol: Option<Protocol>, metadata: Option<Metadata>, files: map<string, Add>, actions: seq<Action>)
      returns (p: Option<Protocol>, m: Option<Metadata>, f: map<string, Add>)
      ensures TableState(p, m, f) == Replay(TableState(protocol, metadata, files), actions)
    {
      p, m, f := protocol, metadata, files;
      for i := 0 to |actions|
        invariant TableState(p, m, f) == Replay(TableState(protocol, metadata, files), actions[..i])
      {
        assert actions[..i + 1][..i] == actions[..i];
        match actions[i]
        case ProtocolAction(newProtocol) => p := Some(newProtocol);
        case MetadataAction(newMetadata) => m := Some(newMetadata);
        case AddAction(added) => f := f[added.path := added];
        case RemoveAction(removed) => f := f - {removed.path};
        case CommitInfoAction(_) =>
      }
      assert actions[..|actions|] == actions;
    }

    method ReadHeld(v: nat, fails: bool) returns (r: Result<seq<Action>, StoreError>)
      requires Valid() && v < INT64_LIMIT
      ensures r == if fails || v >= |entries| then Err(StoreError) else Ok(entries[v])
    {
      HeldEntry(log.store.objects, log.logPrefix, entries, v);
      r := log.ReadVersion(v, fails);
    }

    /** The paths of the files active at the latest version. */
    method ActiveFiles(w: ReadWorld) returns (r: Result<seq<string>, TableError>)
      requires Valid()
      ensures r.Ok? ==> entries != [] && forall path :: path in r.value <==> path in StateOf(entries).files
      ensures r.Ok? ==> forall i, j :: 0 <= i < j < |r.value| ==> r.value[i] != r.value[j]
      ensures r.Ok? <==> entries != [] && !w.listFails && forall i :: 0 <= i < |entries| ==> !w.readFails(i)
    {
      var snap := Snapshot(-1, w);
      if snap.Err? {
        return Err(TableError);
      }
      assert UpTo(entries, |entries| - 1) == entries;
      var paths: seq<string> := [];
      var rest := snap.value.state.files.Keys;
      while rest != {}
        invariant rest <= snap.value.state.files.Keys
        invariant forall path :: path in paths <==> path in snap.value.state.files.Keys - rest
        invariant forall i, j :: 0 <= i < j < |paths| ==> paths[i] != paths[j]
        decreases |rest|
      {
        var path :| path in rest;
        assert path !in paths;
        rest := rest - {path};
        paths := paths + [path];
      }
      r := Ok(paths);
    }
  }

  /** The state of the flattening loop: all files but the rest are listed. */
  ghost predicate Flattened(s: TableState, rest: set<string>, order: seq<Add>, actions: seq<Action>) {
    rest <= s.files.Keys && Lists(order, s.files - rest) && actions == CheckpointHead(s) + AddActions(order)
  }

  lemma BuildStep(s: TableState, order: seq<Add>, actions: seq<Action>, rest: set<string>, path: string)
    requires WellKeyed(s) && path in rest && Flattened(s, rest, order, actions)
    ensures Flattened(s, rest - {path}, order + [s.files[path]], actions + [AddAction(s.files[path])])
  {
    var f := s.files[path];
    assert f.path == path;
    ListsSnoc(order, s.files - rest, f);
    assert s.files - (rest - {path}) == (s.files - rest)[path := f];
  }

  /** Flattens a table state; `order` is the order in which the map was ranged over. */
  method BuildCheckpointActions(s: TableState) returns (actions: seq<Action>, ghost order: seq<Add>)
    requires WellKeyed(s)
    ensures Lists(order, s.files) && actions == CheckpointActions(s, order)
    ensures Replay(EMPTY, actions) == s
    ensures |actions| == |CheckpointHead(s)| + |order|
  {
    actions := CheckpointHead(s);
    order := [];
    var rest := s.files.Keys;
    assert s.files - rest == map[];
    while rest != {}
      invariant Flattened(s, rest, order, actions)
      decreases |rest|
    {
      var path :| path in rest;
      BuildStep(s, order, actions, rest, path);
      rest := rest - {path};
      actions := actions + [AddAction(s.files[path])];
      order := order + [s.files[path]];
    }
    assert s.files - rest == s.files;
    CheckpointRoundTrip(s, order);
  }

  /** The bytes of the Adds in versions first..last that could be read. */
  function AddedBytes(entries: seq<seq<Action>>, first: int, last: int, readFails: int -> bool): int
    decreases last - first
  {
    if last < first then 0
    else
      AddedBytes(entries, first, last - 1, readFails) +
      (if readFails(last) || last < 0 || last >= |entries| then 0 else SumSizes(entries[last]))
  }

  function SumSizes(actions: seq<Action>): int {
    if actions == [] then 0
    else
      SumSizes(actions[..|actions| - 1]) +
      (if actions[|actions| - 1].AddAction? then actions[|actions| - 1].add.size else 0)
  }

  /** The files that a version adds. */
  function AddsIn(actions: seq<Action>): seq<Add> {
    if actions == [] then []
    else
      AddsIn(actions[..|actions| - 1]) +
      (if actions[|actions| - 1].AddAction? then [actions[|actions| - 1].add] else [])
  }

  /** The files added by versions first..last, as far as those versions could be read. */
  function ReadableAdds(entries: seq<seq<Action>>, first: int, last: int, readFails: int -> bool): seq<Add>
    decreases last - first
  {
    if last < first then []
    else
      ReadableAdds(entries, first, last - 1, readFails) +
      (if readFails(last) || last < 0 || last >= |entries| then [] else AddsIn(entries[last]))
  }

  function TotalSize(files: seq<Add>): int {
    if files == [] then 0 else TotalSize(files[..|files| - 1]) + files[|files| - 1].size
  }

  lemma {:induction false} TotalSizeConcat(a: seq<Add>, b: seq<Add>)
    ensures TotalSize(a + b) == TotalSize(a) + TotalSize(b)
  {
    if b == [] {
      assert a + b == a;
    } else {
      assert (a + b)[..|a + b| - 1] == a + b[..|b| - 1];
      TotalSizeConcat(a, b[..|b| - 1]);
    }
  }

  lemma {:induction false} SumSizesIsTotal(actions: seq<Action>)
    ensures SumSizes(actions) == TotalSize(AddsIn(actions))
  {
    if actions != [] {
      var front, last := actions[..|actions| - 1], actions[|actions| - 1];
      SumSizesIsTotal(front);
      if last.AddAction? {
        assert (AddsIn(front) + [last.add])[..|AddsIn(front)|] == AddsIn(front);
      } else {
        assert AddsIn(front) + [] == AddsIn(front);
      }
    }
  }

  /** The estimate's bytes are the sizes of exactly the files that readable versions added. */
  lemma {:induction false} AddedBytesAreTheFiles(entries: seq<seq<Action>>, first: int, last: int, readFails: int -> bool)
    ensures AddedBytes(entries, first, last, readFails) == TotalSize(ReadableAdds(entries, first, last, readFails))
    decreases last - first
  {
    if last >= first {
      AddedBytesAreTheFiles(entries, first, last - 1, readFails);
      var front := ReadableAdds(entries, first, last - 1, readFails);
      if readFails(last) || last < 0 || last >= |entries| {
        assert front + [] == front;
      } else {
        SumSizesIsTotal(entries[last]);
        TotalSizeConcat(front, AddsIn(entries[last]));
      }
    }
  }

  lemma {:induction false} AddsInAre(actions: seq<Action>, f: Add)
    ensures f in AddsIn(actions) <==> AddAction(f) in actions
  {
    if actions != [] {
      var front, last := actions[..|actions| - 1], actions[|actions| - 1];
      AddsInAre(front, f);
      assert actions == front + [last];
    }
  }

  /** Version `v` could be read, and adds this file. */
  predicate AddedReadably(entries: seq<seq<Action>>, v: int, readFails: int -> bool, f: Add) {
    0 <= v < |entries| && !readFails(v) && AddAction(f) in entries[v]
  }

  lemma ReadableAddsStep(entries: seq<seq<Action>>, first: int, last: int, readFails: int -> bool, f: Add)
    requires first <= last
    ensures f in ReadableAdds(entries, first, last, readFails) <==>
            f in ReadableAdds(entries, first, last - 1, readFails) || AddedReadably(entries, last, readFails, f)
  {
    if 0 <= last < |entries| {
      AddsInAre(entries[last], f);
    }
  }

  predicate AddedWithin(entries: seq<seq<Action>>, first: int, last: int, readFails: int -> bool, f: Add) {
    exists v :: first <= v <= last && AddedReadably(entries, v, readFails, f)
  }

  lemma AddedWithinStep(entries: seq<seq<Action>>, first: int, last: int, readFails: int -> bool, f: Add)
    requires first <= last
    ensures AddedWithin(entries, first, last, readFails, f) <==>
            AddedWithin(entries, first, last - 1, readFails, f) || AddedReadably(entries, last, readFails, f)
  {
  }

  /** The files whose sizes are estimated are those that some readable version added. */
  lemma {:induction false} ReadableAddsAre(entries: seq<seq<Action>>, first: int, last: int, readFails: int -> bool, f: Add)
    ensures f in ReadableAdds(entries, first, last, readFails) <==> AddedWithin(entries, first, last, readFails, f)
    decreases last - first
  {
    if first <= last {
      ReadableAddsAre(entries, first, last - 1, readFails, f);
      ReadableAddsStep(entries, first, last, readFails, f);
      AddedWithinStep(entries, first, last, readFails, f);
    }
  }

  /** Go's division truncates toward zero. */
  function TruncatedDiv(a: int, b: int): int
    requires b > 0
  {
    if a >= 0 then a / b else -((-a) / b)
  }

  /** Whole megabytes added after the marker, up to the version. */
  function VolumeMB(entries: seq<seq<Action>>, marker: Option<int>, version: int, readFails: int -> bool): int {
    if marker.None? then 0 else TruncatedDiv(AddedBytes(entries, marker.value + 1, version, readFails), 1024 * 1024)
  }

  ghost function MarkerOf(objects: map<string, Blob>, key: string): Option<nat> {
    if key in objects && objects[key].Marker? then Some(objects[key].version) else None
  }

  /** The state left by writing a checkpoint of version `version` with these actions. */
  function WithCheckpoint(objects: map<string, Blob>, prefix: string, version: nat, actions: seq<Action>): map<string, Blob> {
    objects[CheckpointKey(prefix, version) := CheckpointFile(actions)][MarkerKey(prefix) := Marker(version, |actions|)]
  }

  /** The newest checkpoint is of this version, and its file replays to this state. */
  ghost predicate HoldsCheckpoint(objects: map<string, Blob>, prefix: string, version: nat, s: TableState) {
    && MarkerOf(objects, MarkerKey(prefix)) == Some(version)
    && CheckpointKey(prefix, version) in objects
    && objects[CheckpointKey(prefix, version)].CheckpointFile?
    && Replay(EMPTY, objects[CheckpointKey(prefix, version)].actions) == s
  }

  lemma WrittenCheckpointIsHeld(objects: map<string, Blob>, prefix: string, version: nat, s: TableState, actions: seq<Action>)
    requires IsDirectory(prefix) && version < INT64_LIMIT && Replay(EMPTY, actions) == s
    ensures HoldsCheckpoint(WithCheckpoint(objects, prefix, version, actions), prefix, version, s)
  {
    KeysAreApart(prefix, version, version);
  }

  lemma CheckpointWritesKeepTheLog(objects: map<string, Blob>, prefix: string, log: seq<seq<Action>>, version: nat, blob: Blob)
    requires HoldsLog(objects, prefix, log)
    ensures HoldsLog(objects[CheckpointKey(prefix, version) := blob], prefix, log)
    ensures HoldsLog(objects[MarkerKey(prefix) := blob], prefix, log)
  {
    CheckpointKeyIsNoVersion(prefix, version);
    MarkerKeyIsNoVersion(prefix);
    OtherWritesKeepTheLog(objects, prefix, log, CheckpointKey(prefix, version), blob);
    OtherWritesKeepTheLog(objects, prefix, log, MarkerKey(prefix), blob);
  }

  /** Snapshot, flatten, write the file, write the marker: the common part of both managers. */
  method WriteCheckpoint(table: DeltaTable, version: nat, w: CheckpointWorld) returns (ok: bool, ghost order: seq<Add>)
    requires table.Valid() && version < INT64_LIMIT
    modifies table.log.store
    ensures table.Valid()
    ensures ok <==> CheckpointStores(table.entries, version, w)
    ensures old(table.MarkerRight()) ==> table.MarkerRight()
    ensures ok ==> var s := StateOf(UpTo(table.entries, version));
                   && Lists(order, s.files)
                   && table.log.store.objects ==
                        WithCheckpoint(old(table.log.store.objects), table.log.logPrefix, version, CheckpointActions(s, order))
                   && HoldsCheckpoint(table.log.store.objects, table.log.logPrefix, version, s)
    ensures UntouchedOutside(old(table.log.store.objects), table.log.store.objects, table.log.logPrefix)
  {
    order := [];
    var snap := table.Snapshot(version, w.snapshotReads);
    if snap.Err? {
      return false, order;
    }
    ReplayWellKeyed(EMPTY, Flatten(UpTo(table.entries, version)));
    var actions;
    actions, order := BuildCheckpointActions(snap.value.state);
    WrittenCheckpointIsHeld(table.log.store.objects, table.log.logPrefix, version, snap.value.state, actions);
    ok := StoreCheckpoint(table, version, actions, w);
  }

  /** The two writes of a checkpoint: the file, and the marker only after it. */
  method StoreCheckpoint(table: DeltaTable, version: nat, actions: seq<Action>, w: CheckpointWorld) returns (ok: bool)
    requires table.Valid() && version < INT64_LIMIT
    requires version < |table.entries| && Replay(EMPTY, actions) == StateOf(UpTo(table.entries, version))
    modifies table.log.store
    ensures table.Valid()
    ensures old(table.MarkerRight()) ==> table.MarkerRight()
    ensures ok <==> w.checkpointWrite.Acknowledged? && w.markerWrite.Acknowledged?
    ensures ok ==> MarkerKey(table.log.logPrefix) in table.log.store.objects
                   && table.log.store.objects[MarkerKey(table.log.logPrefix)] == Marker(version, |actions|)
    ensures ok ==> table.log.store.objects == WithCheckpoint(old(table.log.store.objects), table.log.logPrefix, version, actions)
    ensures UntouchedOutside(old(table.log.store.objects), table.log.store.objects, table.log.logPrefix)
  {
    var store, prefix := table.log.store, table.log.logPrefix;
    CheckpointWritesKeepTheLog(store.objects, prefix, table.entries, version, CheckpointFile(actions));
    if table.MarkerRight() {
      CheckpointFileKeepsTheMarker(store.objects, prefix, table.entries, version, actions);
    }
    MarkerNamesTheCheckpoint(store.objects, prefix, table.entries, version, actions, |actions|);
    ok := store.Upload(CheckpointKey(prefix, version), CheckpointFile(actions), w.checkpointWrite);
    if !ok {
      return;
    }
    CheckpointWritesKeepTheLog(store.objects, prefix, table.entries, version, Marker(version, |actions|));
    ok := store.Upload(MarkerKey(prefix), Marker(version, |actions|), w.markerWrite);
  }

  class CheckpointManager {
    const table: DeltaTable
    const config: Config
    var checkpointCount: int

    constructor (table: DeltaTable, config: Config)
      ensures this.table == table && this.config == WithDefaults(config) && checkpointCount == 0
    {
      this.table := table;
      this.config := WithDefaults(config);
      checkpointCount := 0;
    }

    method GetLastCheckpoint(readFails: bool) returns (marker: Option<nat>)
      ensures marker == if readFails then None else MarkerOf(table.log.store.objects, MarkerKey(table.log.logPrefix))
    {
      var blob := table.log.store.Download(MarkerKey(table.log.logPrefix), readFails);
      marker := if blob.Ok? && blob.value.Marker? then Some(blob.value.version) else None;
    }

    /** Versions that cannot be read are skipped, so the estimate never fails. */
    method EstimateDataVolume(fromVersion: int, toVersion: int, readFails: int -> bool) returns (mb: int)
      requires table.Valid() && -1 <= fromVersion && toVersion < INT64_LIMIT
      ensures mb == VolumeMB(table.entries, Some(fromVersion), toVersion, readFails)
      ensures var bytes := TotalSize(ReadableAdds(table.entries, fromVersion + 1, toVersion, readFails));
              bytes >= 0 ==> mb * 1048576 <= bytes < (mb + 1) * 1048576
    {
      var totalSize := 0;
      var v := fromVersion + 1;
      while v <= toVersion
        invariant fromVersion + 1 <= v
        invariant v <= toVersion + 1 || v == fromVersion + 1
        invariant totalSize == AddedBytes(table.entries, fromVersion + 1, v - 1, readFails)
        decreases toVersion - v
      {
        var actions := table.ReadHeld(v, readFails(v));
        if actions.Ok? {
          ghost var before := totalSize;
          for i := 0 to |actions.value|
            invariant totalSize == before + SumSizes(actions.value[..i])
          {
            assert actions.value[..i + 1][..i] == actions.value[..i];
            if actions.value[i].AddAction? {
              totalSize := totalSize + actions.value[i].add.size;
            }
          }
          assert actions.value[..|actions.value|] == actions.value;
        }
        v := v + 1;
      }
      if toVersion < fromVersion {
        assert totalSize == 0;
      }
      AddedBytesAreTheFiles(table.entries, fromVersion + 1, toVersion, readFails);
      mb := TruncatedDiv(totalSize, 1024 * 1024);
    }

    /** The due rule, given the stored marker and the volume of the versions after it. */
    method ShouldCreateCheckpoint(version: nat, w: CheckpointWorld) returns (due: bool)
      requires table.Valid() && Positive(config) && version < INT64_LIMIT
      ensures var marker := if w.markerReadFails then None
                            else MarkerOf(table.log.store.objects, MarkerKey(table.log.logPrefix));
              due == Due(config, marker, VolumeMB(table.entries, marker, version, w.volumeReadFails), version)
    {
      if !config.adaptiveMode {
        return version % config.frequency == 0;
      }
      var last := GetLastCheckpoint(w.markerReadFails);
      if last.None? {
        return version % config.frequency == 0;
      }
      var since := version - last.value;
      if since >= config.frequency * 2 {
        return true;
      }
      if since >= config.frequency {
        var volume := EstimateDataVolume(last.value, version, w.volumeReadFails);
        if volume >= config.sizeThresholdMB {
          return true;
        }
        if since >= REPLAY_LIMIT {
          return true;
        }
      }
      due := false;
    }

    method CreateCheckpoint(version: nat, w: CheckpointWorld) returns (ok: bool, ghost order: seq<Add>)
      requires table.Valid() && version < INT64_LIMIT
      modifies table.log.store, this`checkpointCount
      ensures table.Valid()
      ensures ok <==> CheckpointStores(table.entries, version, w)
      ensures old(table.MarkerRight()) ==> table.MarkerRight()
      ensures ok ==> var s := StateOf(UpTo(table.entries, version));
                     && Lists(order, s.files)
                     && table.log.store.objects ==
                          WithCheckpoint(old(table.log.store.objects), table.log.logPrefix, version, CheckpointActions(s, order))
                     && HoldsCheckpoint(table.log.store.objects, table.log.logPrefix, version, s)
      ensures checkpointCount == old(checkpointCount) + (if ok then 1 else 0)
      ensures UntouchedOutside(old(table.log.store.objects), table.log.store.objects, table.log.logPrefix)
    {
      ok, order := WriteCheckpoint(table, version, w);
      if ok {
        checkpointCount := checkpointCount + 1;
      }
    }

    /** Run on every version, a success keeps the replay tail bounded, whatever the volumes. */
    method MaybeCheckpoint(version: nat, w: CheckpointWorld) returns (ok: bool)
      requires table.Valid() && Positive(config) && version < INT64_LIMIT
      modifies table.log.store, this`checkpointCount
      ensures table.Valid()
      ensures var marker := old(table.StoredMarker());
              var due := DueNow(config, marker, table.entries, version, w);
              && (ok <==> !due || CheckpointStores(table.entries, version, w))
              && (!due ==> table.log.store.objects == old(table.log.store.objects))
      ensures version == 0 ==> ok && table.log.store.objects == old(table.log.store.objects)
      ensures Checkpointed(config, old(table.StoredMarker()), table.log.store.objects, table.log.logPrefix, table.entries, version, w)
      ensures old(table.MarkerRight()) ==> table.MarkerRight()
      ensures UntouchedOutside(old(table.log.store.objects), table.log.store.objects, table.log.logPrefix)
    {
      if version == 0 {
        return true;
      }
      ghost var marker := MarkerOf(table.log.store.objects, MarkerKey(table.log.logPrefix));
      var due := ShouldCreateCheckpoint(version, w);
      if TailBounded(config, marker, version - 1) {
        TailStep(config, marker, VolumeMB(table.entries, marker, version, w.volumeReadFails), version);
      }
      if !due {
        return true;
      }
      ghost var order;
      ok, order := CreateCheckpoint(version, w);
    }
  }

  const LEGACY_INTERVAL := 10

  /** The manager the sync engine uses: every tenth version. */
  class LegacyCheckpointManager {
    const table: DeltaTable

    constructor (table: DeltaTable)
      ensures this.table == table
    {
      this.table := table;
    }

    method MaybeCheckpoint(version: nat, w: CheckpointWorld) returns (ok: bool)
      requires table.Valid() && version < INT64_LIMIT
      modifies table.log.store
      ensures table.Valid()
      ensures old(table.MarkerRight()) ==> table.MarkerRight()
      ensures ok <==> version == 0 || version % 10 != 0 || CheckpointStores(table.entries, version, w)
      ensures ok && version > 0 && version % 10 == 0 ==>
                && version < |table.entries|
                && HoldsCheckpoint(table.log.store.objects, table.log.logPrefix, version, StateOf(UpTo(table.entries, version)))
      ensures version == 0 || version % 10 != 0 ==> ok && table.log.store.objects == old(table.log.store.objects)
      ensures UntouchedOutside(old(table.log.store.objects), table.log.store.objects, table.log.logPrefix)
    {
      if version == 0 || version % LEGACY_INTERVAL != 0 {
        return true;
      }
      ghost var order;
      ok, order := WriteCheckpoint(table, version, w);
    }
  }
}

/** `syncObject` itself (internal/sync/engine.go), over the real table and store.  Its contract is
    that whatever happens to it is a path of the step machine, so every point at which it can
    fail or die is a state for which the machine's theorems hold. */
module ObjectSyncs {
  import opened Wrappers
  import opened Actions
  import opened LogReplay
  import opened Keys
  import opened ObjectStores
  import opened TransactionLogs
  import opened CircuitBreakers
  import opened RetryExecutors
  import opened DeltaTables
  import opened Schemas
  import opened Planners
  import opened SyncEngine

  /** One extracted batch and what happens to it. */
  datatype BatchWorld = BatchWorld(rows: nat, strictlyInvalid: bool, filename: string, size: int, write: WriteOutcome, now: int)

  datatype SyncWorld = SyncWorld(
    initListFails: bool, initWrite: WriteOutcome, initTime: int, schemaString: string,
    batches: seq<BatchWorld>, extractionFails: bool,
    commit: int -> CommitWorld, syncTime: int, watermark: int, checkpoint: CheckpointWorld)

  /** `Panicked`: a batch without a schema dereferences nil, which ends the process. */
  datatype SyncResult = Done | Failed | Panicked

  /** One turn of the extraction loop: go on with these staged files, or stop. */
  datatype Turn = GoOn(staged: seq<Add>) | Stop(result: SyncResult)

  function DataDir(source: string, objectName: string): string {
    "data/" + source + "/" + objectName + "/"
  }

  /** The data files of the object: the keys directly in its directory. */
  ghost function UploadedFiles(objects: map<string, Blob>, dir: string): set<string> {
    set key | key in objects && HasPrefix(key, dir) && '/' !in key[|dir|..] :: key[|dir|..]
  }

  predicate FreshNames(batches: seq<BatchWorld>, used: set<string>) {
    && (forall i :: 0 <= i < |batches| ==> batches[i].filename !in used && '/' !in batches[i].filename)
    && (forall i, j :: 0 <= i < j < |batches| ==> batches[i].filename != batches[j].filename)
  }

  /** The batch is empty, or passes validation and is stored. */
  predicate Good(plan: ObjectPlan, batch: BatchWorld) {
    batch.rows == 0 || (!batch.strictlyInvalid && plan.schema.Some? && batch.write.Acknowledged?)
  }

  predicate AllGood(plan: ObjectPlan, batches: seq<BatchWorld>) {
    forall i :: 0 <= i < |batches| ==> Good(plan, batches[i])
  }

  predicate FirstBad(plan: ObjectPlan, batches: seq<BatchWorld>, i: int) {
    0 <= i < |batches| && !Good(plan, batches[i]) && forall j :: 0 <= j < i ==> Good(plan, batches[j])
  }

  /** The table can be opened. */
  predicate Opens(plan: ObjectPlan, entries: seq<seq<Action>>, w: SyncWorld) {
    plan.schema.None? || (!w.initListFails && (entries != [] || w.initWrite.Acknowledged?))
  }

  /** One of the three attempts of a commit is acknowledged, after retryable failures only. */
  ghost predicate CommitSucceeds(world: int -> CommitWorld) {
    exists k :: 1 <= k <= 3 && Acknowledges(world(k)) && forall j :: 1 <= j < k ==> FailsRetryably(world(j))
  }

  predicate Acknowledges(w: CommitWorld) {
    !w.listFails && w.write.Acknowledged?
  }

  predicate FailsRetryably(w: CommitWorld) {
    !Acknowledges(w) && w.errorRetryable && !w.cancelled
  }

  function RowsOf(batches: seq<BatchWorld>): nat {
    if batches == [] then 0 else RowsOf(batches[..|batches| - 1]) + batches[|batches| - 1].rows
  }

  lemma FreshNow(batches: seq<BatchWorld>, i: nat, used: set<string>)
    requires i < |batches| && FreshNames(batches[i..], used)
    ensures batches[i].filename !in used && '/' !in batches[i].filename
  {
    assert batches[i..][0] == batches[i];
  }

  lemma FreshAfter(batches: seq<BatchWorld>, i: nat, used: set<string>, now: set<string>)
    requires i < |batches| && FreshNames(batches[i..], used) && now <= used + {batches[i].filename}
    ensures FreshNames(batches[i + 1..], now)
  {
    var rest := batches[i..];
    assert rest[0] == batches[i] && batches[i + 1..] == rest[1..];
  }

  /** The Add that describes a batch's data file. */
  function AddOf(batch: BatchWorld): Add {
    NewAdd(batch.filename, batch.size, NumRecords(batch.rows), batch.now)
  }

  function UploadEvent(batch: BatchWorld): Event {
    UploadFile(batch.filename, batch.size, batch.rows, batch.write, batch.now)
  }

  /** The Adds of a whole extraction: one per batch that has rows. */
  function AddsOf(batches: seq<BatchWorld>): seq<Add> {
    if batches == [] then []
    else
      var last := batches[|batches| - 1];
      AddsOf(batches[..|batches| - 1]) + (if last.rows == 0 then [] else [AddOf(last)])
  }

  lemma AddsOfNext(batches: seq<BatchWorld>, i: nat)
    requires i < |batches|
    ensures AddsOf(batches[..i + 1]) == AddsOf(batches[..i]) + (if batches[i].rows == 0 then [] else [AddOf(batches[i])])
  {
    assert batches[..i + 1][..i] == batches[..i];
  }

  lemma RowsNext(staged: seq<Add>, add: Add)
    ensures Rows(staged + [add]) == Rows(staged) + (if add.stats.NumRecords? then add.stats.n else 0)
  {
    assert (staged + [add])[..|staged|] == staged;
  }

  lemma RowsWith(staged: seq<Add>, batch: BatchWorld)
    ensures Rows(staged + (if batch.rows == 0 then [] else [AddOf(batch)])) == Rows(staged) + batch.rows
  {
    if batch.rows == 0 {
      assert staged + [] == staged;
    } else {
      RowsNext(staged, AddOf(batch));
    }
  }

  /** The Adds count exactly the extracted rows. */
  lemma {:induction false} RowsOfAdds(batches: seq<BatchWorld>)
    ensures Rows(AddsOf(batches)) == RowsOf(batches)
    ensures AddsOf(batches) == [] <==> RowsOf(batches) == 0
  {
    if batches != [] {
      var front, last := batches[..|batches| - 1], batches[|batches| - 1];
      RowsOfAdds(front);
      RowsWith(AddsOf(front), last);
    }
  }

  /** The state after a sequence of events, if each can happen where it does. */
  function After(w: ObjectWorld, events: seq<Event>, hash: Hash): Option<ObjectWorld>
    decreases |events|, 1
  {
    if events == [] then Some(w) else AfterLast(w, events, hash)
  }

  function AfterLast(w: ObjectWorld, events: seq<Event>, hash: Hash): Option<ObjectWorld>
    requires events != []
    decreases |events|, 0
  {
    var before, ev := After(w, events[..|events| - 1], hash), events[|events| - 1];
    if before.Some? && CanHappen(before.value, ev, hash) then Some(Happen(before.value, ev, hash)) else None
  }

  lemma AfterSnoc(w: ObjectWorld, events: seq<Event>, x: ObjectWorld, ev: Event, hash: Hash)
    requires After(w, events, hash) == Some(x) && CanHappen(x, ev, hash)
    ensures After(w, events + [ev], hash) == Some(Happen(x, ev, hash))
  {
    assert (events + [ev])[..|events|] == events;
    assert After(w, events + [ev], hash) == AfterLast(w, events + [ev], hash);
  }

  lemma AfterAbandoning(w: ObjectWorld, events: seq<Event>, x: ObjectWorld, hash: Hash)
    requires After(w, events, hash) == Some(x) && (x.job.Extracting? || x.job.Committing?)
    ensures After(w, events + [Abandon], hash) == Some(x.(job := Ready(x.job.meta, x.job.allowed, x.job.plan)))
  {
    AfterSnoc(w, events, x, Abandon, hash);
  }

  lemma {:induction false} AfterComposes(w: ObjectWorld, first: seq<Event>, x: ObjectWorld, second: seq<Event>, hash: Hash)
    requires After(w, first, hash) == Some(x)
    ensures After(w, first + second, hash) == After(x, second, hash)
    decreases |second|
  {
    if second == [] {
      assert first + second == first;
    } else {
      assert (first + second)[..|first + second| - 1] == first + second[..|second| - 1];
      AfterComposes(w, first, x, second[..|second| - 1], hash);
      assert AfterLast(w, first + second, hash) == AfterLast(x, second, hash);
    }
  }

  function Lift(name: string, events: seq<Event>): (steps: seq<Step>)
    ensures |steps| == |events|
    ensures forall i :: 0 <= i < |steps| ==> steps[i] == ObjectStep(name, events[i])
  {
    seq(|events|, i requires 0 <= i < |events| => ObjectStep(name, events[i]))
  }

  /** A path of one object is a path of the engine, from any state of the others. */
  lemma {:induction false} ObjectPathIsEnginePath(e: Engine, name: string, events: seq<Event>, x: ObjectWorld, hash: Hash)
    requires e.running && name in e.objects && After(e.objects[name], events, hash) == Some(x)
    ensures RunsTo(e, Lift(name, events), e.(objects := e.objects[name := x]), hash)
    decreases |events|
  {
    if events == [] {
      assert e.objects[name := x] == e.objects;
    } else {
      var front, ev := events[..|events| - 1], events[|events| - 1];
      assert After(e.objects[name], events, hash) == AfterLast(e.objects[name], events, hash);
      var y := After(e.objects[name], front, hash).value;
      ObjectPathIsEnginePath(e, name, front, y, hash);
      var mid := e.(objects := e.objects[name := y]);
      EngineStep(e, name, y, ev, hash);
      RunsToSnoc(e, Lift(name, front), mid, ObjectStep(name, ev), hash);
      assert Lift(name, events) == Lift(name, front) + [ObjectStep(name, ev)];
    }
  }

  lemma EngineStep(e: Engine, name: string, y: ObjectWorld, ev: Event, hash: Hash)
    requires e.running && name in e.objects && CanHappen(y, ev, hash)
    ensures var mid := e.(objects := e.objects[name := y]);
            && Enabled(mid, ObjectStep(name, ev), hash)
            && Next(mid, ObjectStep(name, ev), hash) == e.(objects := e.objects[name := Happen(y, ev, hash)])
  {
    var x := Happen(y, ev, hash);
    assert e.objects[name := y][name := x] == e.objects[name := x];
  }

  lemma {:induction false} RunsToSnoc(e: Engine, steps: seq<Step>, mid: Engine, step: Step, hash: Hash)
    requires RunsTo(e, steps, mid, hash) && Enabled(mid, step, hash)
    ensures RunsTo(e, steps + [step], Next(mid, step, hash), hash)
    decreases |steps|
  {
    if steps == [] {
      assert ([] + [step])[1..] == [];
      assert FirstThenRest(e, [] + [step], Next(mid, step, hash), hash);
    } else {
      assert FirstThenRest(e, steps, mid, hash);
      RunsToSnoc(Next(e, steps[0], hash), steps[1..], mid, step, hash);
      assert (steps + [step])[1..] == steps[1..] + [step];
      assert FirstThenRest(e, steps + [step], Next(mid, step, hash), hash);
    }
  }

  /** Opening the table, as an event: version 0 is there afterwards, unless it was lost or not needed. */
  function OpenEvent(source: string, objectName: string, w: SyncWorld): Event {
    Initialize(source + "_" + objectName, w.schemaString, w.initListFails, w.initWrite, w.initTime)
  }

  function OpenedLog(source: string, plan: ObjectPlan, entries: seq<seq<Action>>, w: SyncWorld): seq<seq<Action>> {
    if plan.schema.Some? && !w.initListFails && entries == [] && !w.initWrite.Lost?
    then [InitialVersion(source + "_" + plan.objectName, plan.objectName, w.schemaString, w.initTime)] else entries
  }

  lemma OpeningIs(x: ObjectWorld, source: string, w: SyncWorld, hash: Hash)
    requires x.job.Ready?
    ensures CanHappen(x, OpenEvent(source, x.job.plan.objectName, w), hash)
    ensures Happen(x, OpenEvent(source, x.job.plan.objectName, w), hash) ==
            x.(log := OpenedLog(source, x.job.plan, x.log, w),
               job := if Opens(x.job.plan, x.log, w) then Extracting(x.job.meta, x.job.allowed, x.job.plan, []) else x.job)
  {
  }

  // ---------------------------------------------------------------- the commit as events

  /** One invoked attempt of the commit, as an event. */
  function CommitEvent(w: CommitWorld): Event {
    WriteCommit(if w.listFails then Lost else w.write, w.now)
  }

  function CommitEvents(invoked: seq<int>, world: int -> CommitWorld): (events: seq<Event>)
    ensures |events| == |invoked|
  {
    seq(|invoked|, i requires 0 <= i < |invoked| => CommitEvent(world(invoked[i])))
  }

  /** Only the last attempt of an `Execute` can have succeeded, and it did exactly when the
      whole succeeded. */
  lemma {:induction false} OnlyTheLastSucceeds(b: Fields, attempt: int, policy: Policy, world: int -> CommitWorld)
    ensures var run := RunFrom(b, attempt, policy, AttemptsOf(world));
            && (forall i :: 0 <= i < |run.invoked| - 1 ==> OutcomeOf(world(run.invoked[i])).Fails?)
            && (run.end == Success <==> run.invoked != [] && OutcomeOf(world(run.invoked[|run.invoked| - 1])).Succeeds?)
    decreases policy.maxAttempts - attempt
  {
    if attempt <= policy.maxAttempts {
      var w := AttemptsOf(world)(attempt);
      var (checked, admitted) := CheckAlone(b, w.readTime, w.lockTime);
      var after := if admitted then Record(checked, w.outcome.Succeeds?, w.recordTime) else checked;
      OnlyTheLastSucceeds(after, attempt + 1, policy, world);
    }
  }

  /** Between two attempts of one commit: the same job, none acknowledged yet. */
  predicate StillTrying(job: Job, later: Job) {
    later == job || (HasStaged(job) && later.Committing? && later.meta == job.meta && later.allowed == job.allowed
                     && later.plan == job.plan && later.staged == job.staged)
  }

  predicate Tries(w: ObjectWorld) {
    (w.job.Extracting? || w.job.Committing?) && w.job.staged != [] && w.job.plan.schema.Some?
  }

  /** The later world of the same object, differing in its log, its committed syncs and its job. */
  predicate SameButForCommits(w: ObjectWorld, x: ObjectWorld, log: seq<seq<Action>>) {
    x.uploaded == w.uploaded && x.mem == w.mem && x.log == log
  }

  /** However often the commit landed in between, its sync is committed once. */
  predicate CommitsOnce(w: ObjectWorld, x: ObjectWorld)
    requires HasStaged(w.job)
  {
    && (Outstanding(w.job) ==> Outstanding(x.job))
    && x.committed == if Outstanding(x.job) then CommittedThen(w) else w.committed
  }

  lemma OneFailingAttempt(w: ObjectWorld, attempt: CommitWorld, hash: Hash) returns (y: ObjectWorld)
    requires Tries(w) && OutcomeOf(attempt).Fails?
    ensures CommitsOnce(w, y)
    ensures After(w, [CommitEvent(attempt)], hash) == Some(y)
    ensures SameButForCommits(w, y, w.log + OneCopy(w.log, AddActions(w.job.staged), OperationOf(w.job.plan), attempt))
    ensures Tries(y) && StillTrying(w.job, y.job)
  {
    y := Happen(w, CommitEvent(attempt), hash);
    AfterSnoc(w, [], w, CommitEvent(attempt), hash);
    assert [] + [CommitEvent(attempt)] == [CommitEvent(attempt)];
  }

  /** A run of failing attempts is a path that only lengthens the log. */
  lemma {:induction false} FailingAttemptsPath(w: ObjectWorld, invoked: seq<int>, world: int -> CommitWorld, hash: Hash)
    returns (x: ObjectWorld)
    requires Tries(w) && forall i :: 0 <= i < |invoked| ==> OutcomeOf(world(invoked[i])).Fails?
    ensures CommitsOnce(w, x)
    ensures After(w, CommitEvents(invoked, world), hash) == Some(x)
    ensures SameButForCommits(w, x, LogAfter(w.log, AddActions(w.job.staged), OperationOf(w.job.plan), invoked, world))
    ensures Tries(x) && StillTrying(w.job, x.job)
    decreases |invoked|
  {
    if invoked == [] {
      x := w;
    } else {
      var ev := CommitEvent(world(invoked[0]));
      var y := OneFailingAttempt(w, world(invoked[0]), hash);
      x := FailingAttemptsPath(y, invoked[1..], world, hash);
      AfterComposes(w, [ev], y, CommitEvents(invoked[1..], world), hash);
      assert CommitEvents(invoked, world) == [ev] + CommitEvents(invoked[1..], world);
    }
  }

  lemma {:induction false} LogAfterSnoc(log: seq<seq<Action>>, actions: seq<Action>, operation: string, invoked: seq<int>, last: int,
                                        world: int -> CommitWorld)
    ensures var before := LogAfter(log, actions, operation, invoked, world);
            LogAfter(log, actions, operation, invoked + [last], world) == before + OneCopy(before, actions, operation, world(last))
    decreases |invoked|
  {
    if invoked == [] {
      assert ([] + [last])[1..] == [];
    } else {
      assert (invoked + [last])[1..] == invoked[1..] + [last];
      LogAfterSnoc(log + OneCopy(log, actions, operation, world(invoked[0])), actions, operation, invoked[1..], last, world);
    }
  }

  lemma OneWinningAttempt(w: ObjectWorld, attempt: CommitWorld, hash: Hash) returns (x: ObjectWorld)
    requires Tries(w) && OutcomeOf(attempt).Succeeds?
    ensures x.committed == CommittedThen(w)
    ensures MarkedAs(x.log, OperationOf(w.job.plan))
    ensures After(w, [CommitEvent(attempt)], hash) == Some(x)
    ensures SameButForCommits(w, x, w.log + OneCopy(w.log, AddActions(w.job.staged), OperationOf(w.job.plan), attempt))
    ensures x.log != [] && x.job == Job.Committed(w.job.meta, w.job.allowed, w.job.plan, w.job.staged, |x.log| - 1)
    ensures IsCommitOf(x.log, |x.log| - 1, w.job.staged)
  {
    x := Happen(w, CommitEvent(attempt), hash);
    AfterSnoc(w, [], w, CommitEvent(attempt), hash);
    assert [] + [CommitEvent(attempt)] == [CommitEvent(attempt)];
    var info := CommitInfo(attempt.now, OperationOf(w.job.plan), map[], |w.log| - 1, true);
    assert x.log[|w.log|] == AddActions(w.job.staged) + [CommitInfoAction(info)];
  }

  /** The newest version says which operation made it. */
  predicate MarkedAs(log: seq<seq<Action>>, operation: string) {
    && log != [] && log[|log| - 1] != []
    && var last := log[|log| - 1][|log[|log| - 1]| - 1];
    last.CommitInfoAction? && last.commitInfo.operation == operation
  }

  /** Failing attempts and then one that succeeds lead to `Committed`. */
  lemma WinningPath(w: ObjectWorld, front: seq<int>, last: int, world: int -> CommitWorld, hash: Hash) returns (x: ObjectWorld)
    requires Tries(w) && forall i :: 0 <= i < |front| ==> OutcomeOf(world(front[i])).Fails?
    requires OutcomeOf(world(last)).Succeeds?
    ensures x.committed == CommittedThen(w) && MarkedAs(x.log, OperationOf(w.job.plan))
    ensures After(w, CommitEvents(front + [last], world), hash) == Some(x)
    ensures SameButForCommits(w, x, LogAfter(w.log, AddActions(w.job.staged), OperationOf(w.job.plan), front + [last], world))
    ensures x.log != [] && x.job == Job.Committed(w.job.meta, w.job.allowed, w.job.plan, w.job.staged, |x.log| - 1)
    ensures IsCommitOf(x.log, |x.log| - 1, w.job.staged)
  {
    var y := FailingAttemptsPath(w, front, world, hash);
    x := OneWinningAttempt(y, world(last), hash);
    LogAfterSnoc(w.log, AddActions(w.job.staged), OperationOf(w.job.plan), front, last, world);
    AfterComposes(w, CommitEvents(front, world), y, [CommitEvent(world(last))], hash);
    assert CommitEvents(front + [last], world) == CommitEvents(front, world) + [CommitEvent(world(last))];
  }

  lemma AttemptsPath(w: ObjectWorld, invoked: seq<int>, won: bool, world: int -> CommitWorld, hash: Hash) returns (x: ObjectWorld)
    requires Tries(w) && forall i :: 0 <= i < |invoked| - 1 ==> OutcomeOf(world(invoked[i])).Fails?
    requires won <==> invoked != [] && OutcomeOf(world(invoked[|invoked| - 1])).Succeeds?
    ensures After(w, CommitEvents(invoked, world), hash) == Some(x)
    ensures SameButForCommits(w, x, LogAfter(w.log, AddActions(w.job.staged), OperationOf(w.job.plan), invoked, world))
    ensures if won then x.log != [] && x.job == Job.Committed(w.job.meta, w.job.allowed, w.job.plan, w.job.staged, |x.log| - 1)
            else Tries(x) && StillTrying(w.job, x.job)
    ensures won ==> IsCommitOf(x.log, |x.log| - 1, w.job.staged)
    ensures won ==> x.committed == CommittedThen(w) && MarkedAs(x.log, OperationOf(w.job.plan))
  {
    if won {
      var front, last := invoked[..|invoked| - 1], invoked[|invoked| - 1];
      assert invoked == front + [last];
      x := WinningPath(w, front, last, world, hash);
    } else {
      x := FailingAttemptsPath(w, invoked, world, hash);
    }
  }

  /** How a retried commit of the staged files ends: on success the job is `Committed` with the newest
      version, which holds exactly those files; else it is as far as before, and the log maybe longer. */
  ghost predicate CommitEnds(w: ObjectWorld, x: ObjectWorld, won: bool)
    requires Tries(w)
  {
    && w.log <= x.log
    && if won
       then x.log != [] && x.job == Job.Committed(w.job.meta, w.job.allowed, w.job.plan, w.job.staged, |x.log| - 1)
            && IsCommitOf(x.log, |x.log| - 1, w.job.staged) && MarkedAs(x.log, OperationOf(w.job.plan))
            && x.committed == CommittedThen(w)
       else Tries(x) && StillTrying(w.job, x.job)
  }

  lemma CommitEnded(w: ObjectWorld, x: ObjectWorld, won: bool)
    requires w.job.Extracting? && Tries(w) && CommitEnds(w, x, won)
    ensures won ==>
              && x.log != [] && x.job == Job.Committed(w.job.meta, w.job.allowed, w.job.plan, w.job.staged, |x.log| - 1)
              && IsCommitOf(x.log, |x.log| - 1, w.job.staged) && MarkedAs(x.log, OperationOf(w.job.plan))
              && x.committed == w.committed + [RecordOf(w.job)]
    ensures !won ==>
              && (x.job.Extracting? || x.job.Committing?)
              && x.job.meta == w.job.meta && x.job.allowed == w.job.allowed && x.job.plan == w.job.plan
  {
  }

  /** A commit behind a fresh table's breaker succeeds exactly when an attempt is acknowledged in time. */
  lemma FreshCommitSucceeds(b: Fields, world: int -> CommitWorld)
    requires b.state == Closed && b.failureCount == 0 && b.maxFailures == 5
    ensures RunFrom(b, 1, Policy(3, false), AttemptsOf(world)).end == Success <==> CommitSucceeds(world)
  {
    RoomyBreakerNeverMatters(b, 1, Policy(3, false), AttemptsOf(world));
    forall k | 1 <= k <= 3 ensures AttemptsOf(world)(k).outcome.Succeeds? <==> Acknowledges(world(k)) {
    }
    if SucceedsInTime(1, Policy(3, false), AttemptsOf(world)) {
      var k :| 1 <= k <= 3 && AttemptsOf(world)(k).outcome.Succeeds?
               && forall j :: 1 <= j < k ==> AttemptsOf(world)(j).outcome == Fails(true) && !AttemptsOf(world)(j).cancelled;
      assert Acknowledges(world(k));
      forall j | 1 <= j < k ensures FailsRetryably(world(j)) {
        assert AttemptsOf(world)(j).outcome == Fails(true);
      }
    }
    if CommitSucceeds(world) {
      var k :| 1 <= k <= 3 && Acknowledges(world(k)) && forall j :: 1 <= j < k ==> FailsRetryably(world(j));
      assert AttemptsOf(world)(k).outcome.Succeeds?;
      forall j | 1 <= j < k ensures AttemptsOf(world)(j).outcome == Fails(true) && !AttemptsOf(world)(j).cancelled {
        assert FailsRetryably(world(j));
      }
    }
  }

  /** The whole commit is a path: to `Committed` when it succeeds, else to a longer log at most. */
  lemma CommitPath(w: ObjectWorld, b: Fields, policy: Policy, world: int -> CommitWorld, hash: Hash) returns (x: ObjectWorld)
    requires Tries(w)
    ensures var run := RunFrom(b, 1, policy, AttemptsOf(world));
            && After(w, CommitEvents(run.invoked, world), hash) == Some(x)
            && SameButForCommits(w, x, LogAfter(w.log, AddActions(w.job.staged), OperationOf(w.job.plan), run.invoked, world))
            && CommitEnds(w, x, run.end == Success)
  {
    OnlyTheLastSucceeds(b, 1, policy, world);
    var run := RunFrom(b, 1, policy, AttemptsOf(world));
    x := AttemptsPath(w, run.invoked, run.end == Success, world, hash);
    CommitOnlyAppends(w.log, AddActions(w.job.staged), OperationOf(w.job.plan), run.invoked, world);
  }

  // ---------------------------------------------------------------- keys of data files and log

  lemma DataKeyIsNotInTheLog(source: string, objectName: string, filename: string)
    requires '/' !in filename
    ensures !HasPrefix(DataDir(source, objectName) + filename, DeltaLogPrefix(source, objectName))
  {
    var dir, key := DataDir(source, objectName), DataDir(source, objectName) + filename;
    var prefix := DeltaLogPrefix(source, objectName);
    assert prefix == dir + "_delta_log/";
    if HasPrefix(key, prefix) {
      LastOfPrefix(dir, filename, "_delta_log/");
    }
  }

  lemma LastOfPrefix(dir: string, filename: string, tail: string)
    requires HasPrefix(dir + filename, dir + tail) && tail != ""
    ensures |filename| >= |tail| && filename[|tail| - 1] == tail[|tail| - 1]
  {
    var i := |dir| + |tail| - 1;
    assert (dir + filename)[i] == (dir + tail)[i];
  }

  lemma LogWritesKeepTheFiles(before: map<string, Blob>, after: map<string, Blob>, source: string, objectName: string)
    requires UntouchedOutside(before, after, DeltaLogPrefix(source, objectName))
    ensures UploadedFiles(after, DataDir(source, objectName)) == UploadedFiles(before, DataDir(source, objectName))
  {
    var dir := DataDir(source, objectName);
    forall f ensures f in UploadedFiles(after, dir) <==> f in UploadedFiles(before, dir) {
      FileByName(after, dir, f);
      FileByName(before, dir, f);
      if '/' !in f {
        DataKeyIsNotInTheLog(source, objectName, f);
      }
    }
  }

  lemma FileByName(objects: map<string, Blob>, dir: string, f: string)
    ensures f in UploadedFiles(objects, dir) <==> '/' !in f && dir + f in objects
  {
    assert HasPrefix(dir + f, dir) && (dir + f)[|dir|..] == f;
    if f in UploadedFiles(objects, dir) {
      var key :| key in objects && HasPrefix(key, dir) && '/' !in key[|dir|..] && key[|dir|..] == f;
      assert key == dir + f;
    }
  }

  lemma UploadAddsTheFile(objects: map<string, Blob>, dir: string, filename: string, blob: Blob)
    requires '/' !in filename
    ensures UploadedFiles(objects[dir + filename := blob], dir) == UploadedFiles(objects, dir) + {filename}
  {
    var after := objects[dir + filename := blob];
    forall f ensures f in UploadedFiles(after, dir) <==> f in UploadedFiles(objects, dir) + {filename} {
      FileByName(after, dir, f);
      FileByName(objects, dir, f);
      assert dir + f == dir + filename ==> f == filename by {
        assert (dir + f)[|dir|..] == f && (dir + filename)[|dir|..] == filename;
      }
    }
  }

  // ---------------------------------------------------------------- syncObject

  class ObjectSync {
    const store: ObjectStore
    const source: string
    const objectName: string
    const hash: Hash
    /** The object's entry in the in-memory sync state. */
    var state: Option<ObjectState>
    ghost var lineage: seq<SyncRecord>
    ghost var entries: seq<seq<Action>>
    /** Every sync of the object whose commit ever landed. */
    ghost var committed: seq<SyncRecord>

    ghost predicate Valid()
      reads this, store
    {
      HoldsLog(store.objects, DeltaLogPrefix(source, objectName), entries)
    }

    ghost function Mem(): Option<Tracked>
      reads this
    {
      if state.None? then None else Some(Tracked(state.value, lineage))
    }

    /** The object as the step machine sees it. */
    ghost function View(job: Job): ObjectWorld
      reads this, store
    {
      ObjectWorld(UploadedFiles(store.objects, DataDir(source, objectName)), entries, committed, Mem(), job)
    }

    constructor (store: ObjectStore, source: string, objectName: string, hash: Hash, state: Option<ObjectState>,
                 ghost lineage: seq<SyncRecord>, ghost entries: seq<seq<Action>>, ghost committed: seq<SyncRecord>)
      requires HoldsLog(store.objects, DeltaLogPrefix(source, objectName), entries)
      ensures Valid() && this.state == state && this.entries == entries && this.lineage == lineage && this.committed == committed
      ensures this.store == store && this.source == source && this.objectName == objectName && this.hash == hash
    {
      this.store := store;
      this.source := source;
      this.objectName := objectName;
      this.hash := hash;
      this.state := state;
      this.lineage := lineage;
      this.entries := entries;
      this.committed := committed;
    }

    /** One batch written to a data file of its own. */
    method UploadBatch(meta: ObjectMetadata, allowed: seq<string>, plan: ObjectPlan, ghost staged: seq<Add>, batch: BatchWorld)
      returns (ok: bool)
      requires Valid() && plan.schema.Some? && '/' !in batch.filename
      requires batch.filename !in UploadedFiles(store.objects, DataDir(source, objectName))
      modifies store
      ensures Valid() && (ok <==> batch.write.Acknowledged?)
      ensures store.objects ==
              AfterWrite(old(store.objects), DataDir(source, objectName) + batch.filename, DataFile(batch.rows), batch.write)
      ensures CanHappen(old(View(Extracting(meta, allowed, plan, staged))), UploadEvent(batch), hash)
      ensures Happen(old(View(Extracting(meta, allowed, plan, staged))), UploadEvent(batch), hash) ==
              View(if ok then Extracting(meta, allowed, plan, staged + [AddOf(batch)]) else Ready(meta, allowed, plan))
      ensures UploadedFiles(store.objects, DataDir(source, objectName)) <=
              old(UploadedFiles(store.objects, DataDir(source, objectName))) + {batch.filename}
    {
      var dir := DataDir(source, objectName);
      DataKeyIsNotInTheLog(source, objectName, batch.filename);
      OtherWritesKeepTheLog(store.objects, DeltaLogPrefix(source, objectName), entries, dir + batch.filename, DataFile(batch.rows));
      UploadAddsTheFile(store.objects, dir, batch.filename, DataFile(batch.rows));
      ok := store.Upload(dir + batch.filename, DataFile(batch.rows), batch.write);
    }

    /** An empty batch is skipped; one that fails strict validation, or whose upload fails, ends the
        sync; one without a schema ends the process; any other becomes a file and an Add. */
    method TakeBatch(meta: ObjectMetadata, allowed: seq<string>, plan: ObjectPlan, staged: seq<Add>, batch: BatchWorld)
      returns (turn: Turn, ghost events: seq<Event>)
      requires Valid() && '/' !in batch.filename
      requires batch.filename !in UploadedFiles(store.objects, DataDir(source, objectName))
      modifies store
      ensures Valid() && (turn.Stop? ==> !turn.result.Done?)
      ensures After(old(View(Extracting(meta, allowed, plan, staged))), events, hash) ==
              Some(View(match turn
                        case GoOn(longer) => Extracting(meta, allowed, plan, longer)
                        case Stop(result) => if result.Failed? then Ready(meta, allowed, plan) else Extracting(meta, allowed, plan, staged)))
      ensures turn.GoOn? <==> Good(plan, batch)
      ensures turn.Stop? ==> turn.result == if batch.strictlyInvalid || plan.schema.Some? then Failed else Panicked
      ensures turn.GoOn? ==>
                turn.staged == if batch.rows == 0 then staged
                               else staged + [Add(batch.filename, batch.size, map[], batch.now, true, NumRecords(batch.rows), map[])]
      ensures store.objects ==
              if batch.rows == 0 || batch.strictlyInvalid || plan.schema.None? then old(store.objects)
              else AfterWrite(old(store.objects), DataDir(source, objectName) + batch.filename, DataFile(batch.rows), batch.write)
      ensures events == if batch.rows == 0 then [] else if batch.strictlyInvalid then [Abandon]
                        else if plan.schema.None? then [] else [UploadEvent(batch)]
      ensures UploadedFiles(store.objects, DataDir(source, objectName)) <=
              old(UploadedFiles(store.objects, DataDir(source, objectName))) + {batch.filename}
    {
      ghost var w := View(Extracting(meta, allowed, plan, staged));
      events := [];
      if batch.rows == 0 {
        return GoOn(staged), events;
      }
      if batch.strictlyInvalid {
        AfterSnoc(w, [], w, Abandon, hash);
        return Stop(Failed), [] + [Abandon];
      }
      if plan.schema.None? {
        return Stop(Panicked), events;
      }
      AfterSnoc(w, [], w, UploadEvent(batch), hash);
      events := [] + [UploadEvent(batch)];
      var ok := UploadBatch(meta, allowed, plan, staged, batch);
      turn := if ok then GoOn(staged + [AddOf(batch)]) else Stop(Failed);
    }

    /** The loop has taken the first `i` batches, without an error so far. */
    ghost predicate Extracted(w0: ObjectWorld, events: seq<Event>, meta: ObjectMetadata, allowed: seq<string>, plan: ObjectPlan,
                              batches: seq<BatchWorld>, i: nat, staged: seq<Add>, totalRecords: int)
      reads this, store
    {
      && Valid() && i <= |batches|
      && After(w0, events, hash) == Some(View(Extracting(meta, allowed, plan, staged)))
      && totalRecords == Rows(staged) && staged == AddsOf(batches[..i])
      && (staged != [] ==> plan.schema.Some?)
      && (forall j :: 0 <= j < i ==> Good(plan, batches[j]))
      && FreshNames(batches[i..], UploadedFiles(store.objects, DataDir(source, objectName)))
    }

    lemma NoneExtracted(w0: ObjectWorld, meta: ObjectMetadata, allowed: seq<string>, plan: ObjectPlan, batches: seq<BatchWorld>)
      requires Valid() && FreshNames(batches, UploadedFiles(store.objects, DataDir(source, objectName)))
      requires w0 == View(Extracting(meta, allowed, plan, []))
      ensures Extracted(w0, [], meta, allowed, plan, batches, 0, [], 0)
    {
      assert batches[0..] == batches;
    }

    lemma AllExtracted(w0: ObjectWorld, events: seq<Event>, meta: ObjectMetadata, allowed: seq<string>, plan: ObjectPlan,
                       batches: seq<BatchWorld>, staged: seq<Add>, totalRecords: int)
      requires Extracted(w0, events, meta, allowed, plan, batches, |batches|, staged, totalRecords)
      ensures staged == AddsOf(batches) && totalRecords == Rows(staged) == RowsOf(batches)
      ensures staged == [] <==> RowsOf(batches) == 0
    {
      assert batches[..|batches|] == batches;
      RowsOfAdds(batches);
    }

    /** The loop body. */
    method TakeNext(ghost w0: ObjectWorld, ghost before: seq<Event>, meta: ObjectMetadata, allowed: seq<string>, plan: ObjectPlan,
                    batches: seq<BatchWorld>, i: nat, staged: seq<Add>, totalRecords: int)
      returns (turn: Turn, ghost events: seq<Event>)
      requires i < |batches| && Extracted(w0, before, meta, allowed, plan, batches, i, staged, totalRecords)
      modifies store
      ensures turn.GoOn? ==>
                Extracted(w0, events, meta, allowed, plan, batches, i + 1, turn.staged, totalRecords + batches[i].rows)
      ensures turn.Stop? ==>
                && Valid() && FirstBad(plan, batches, i)
                && turn.result == (if batches[i].strictlyInvalid || plan.schema.Some? then Failed else Panicked)
                && After(w0, events, hash) ==
                   Some(View(if turn.result.Failed? then Ready(meta, allowed, plan) else Extracting(meta, allowed, plan, staged)))
    {
      ghost var used := UploadedFiles(store.objects, DataDir(source, objectName));
      FreshNow(batches, i, used);
      ghost var x, more := View(Extracting(meta, allowed, plan, staged)), [];
      turn, more := TakeBatch(meta, allowed, plan, staged, batches[i]);
      AfterComposes(w0, before, x, more, hash);
      events := before + more;
      FreshAfter(batches, i, used, UploadedFiles(store.objects, DataDir(source, objectName)));
      AddsOfNext(batches, i);
      RowsWith(staged, batches[i]);
    }

    /** Extraction and upload: each nonempty batch becomes one data file and one Add. */
    method UploadBatches(meta: ObjectMetadata, allowed: seq<string>, plan: ObjectPlan, batches: seq<BatchWorld>)
      returns (result: SyncResult, staged: seq<Add>, totalRecords: int, ghost events: seq<Event>)
      requires Valid() && FreshNames(batches, UploadedFiles(store.objects, DataDir(source, objectName)))
      modifies store
      ensures Valid()
      ensures After(old(View(Extracting(meta, allowed, plan, []))), events, hash) ==
              Some(View(if result.Failed? then Ready(meta, allowed, plan) else Extracting(meta, allowed, plan, staged)))
      ensures result.Done? <==> AllGood(plan, batches)
      ensures !result.Done? ==>
                exists i :: FirstBad(plan, batches, i)
                            && result == if batches[i].strictlyInvalid || plan.schema.Some? then Failed else Panicked
      ensures result.Done? ==> totalRecords == Rows(staged) == RowsOf(batches)
      ensures result.Done? ==> (staged == [] <==> RowsOf(batches) == 0) && staged == AddsOf(batches)
      ensures staged != [] ==> plan.schema.Some?
    {
      ghost var w0 := View(Extracting(meta, allowed, plan, []));
      staged, totalRecords, events := [], 0, [];
      NoneExtracted(w0, meta, allowed, plan, batches);
      for i := 0 to |batches|
        invariant Extracted(w0, events, meta, allowed, plan, batches, i, staged, totalRecords)
      {
        var turn;
        turn, events := TakeNext(w0, events, meta, allowed, plan, batches, i, staged, totalRecords);
        if turn.Stop? {
          return turn.result, if turn.result.Failed? then [] else staged, totalRecords, events;
        }
        staged, totalRecords := turn.staged, totalRecords + batches[i].rows;
      }
      AllExtracted(w0, events, meta, allowed, plan, batches, staged, totalRecords);
      result := Done;
    }

    /** The table of the object, created empty when there is none yet. */
    method OpenTable(meta: ObjectMetadata, allowed: seq<string>, plan: ObjectPlan, w: SyncWorld)
      returns (table: DeltaTable, ok: bool, ghost event: Event)
      requires Valid() && plan.objectName == objectName
      modifies this`entries, store
      ensures Valid() && old(entries) <= entries && |entries| <= |old(entries)| + 1
      ensures OpenedHere(table) && fresh(table) && fresh(table.circuitBreaker) && FreshTable(table)
      ensures ok <==> Opens(plan, old(entries), w)
      ensures entries == OpenedLog(source, plan, old(entries), w)
      ensures CanHappen(old(View(Ready(meta, allowed, plan))), event, hash)
      ensures Happen(old(View(Ready(meta, allowed, plan))), event, hash) ==
              View(if ok then Extracting(meta, allowed, plan, []) else Ready(meta, allowed, plan))
    {
      table := new DeltaTable(store, source, objectName, DeltaLogPrefix(source, objectName), entries);
      event := OpenEvent(source, objectName, w);
      OpeningIs(View(Ready(meta, allowed, plan)), source, w, hash);
      ok := true;
      if plan.schema.Some? {
        ghost var before := store.objects;
        ok := table.Initialize(w.schemaString, w.initListFails, w.initWrite, w.initTime);
        entries := table.entries;
        LogWritesKeepTheFiles(before, store.objects, source, objectName);
      }
    }

    ghost predicate OpenedHere(table: DeltaTable)
      reads this, table, store, table.log.store
    {
      && table.log.store == store && table.log.logPrefix == DeltaLogPrefix(source, objectName)
      && table.Valid() && table.entries == entries
      && table.checkpointManager == null && table.retryPolicy.maxAttempts == 3
    }

    /** A table nobody committed to: three attempts, behind a closed breaker that opens at five failures. */
    ghost predicate FreshTable(table: DeltaTable)
      reads table, table.circuitBreaker
    {
      && table.retryPolicy == Policy(3, false)
      && table.circuitBreaker.state == Closed && table.circuitBreaker.failureCount == 0 && table.circuitBreaker.maxFailures == 5
    }

    /** The newest version is the commit of exactly these files, the state names it, counts their rows
        and takes its schema and mode from the plan, and every tenth version is checkpointed. */
    ghost predicate Stored(plan: ObjectPlan, files: seq<Add>, records: int, w: SyncWorld)
      reads this, store
    {
      var version := |entries| - 1;
      && IsCommitOf(entries, version, files)
      && MarkedAs(entries, if plan.mode == Full then "WRITE (full sync)" else "WRITE")
      && plan.schema.Some?
      && state == Some(ObjectState(w.syncTime, plan.watermarkField, w.watermark, hash(Canonical(plan.schema.value.fields)),
                                   plan.newVersion, plan.schema, version, records, records, plan.mode))
      && TenthIsCheckpointed(version, w.checkpoint)
    }

    /** A version that is a multiple of ten has its checkpoint, unless the store refused it. */
    ghost predicate TenthIsCheckpointed(version: int, w: CheckpointWorld)
      reads this, store
    {
      version > 0 && version % 10 == 0 && CheckpointStores(entries, version, w) ==>
        HoldsCheckpoint(store.objects, DeltaLogPrefix(source, objectName), version, StateOf(UpTo(entries, version)))
    }

    /** The sync, if it had rows, was added to what was committed before. */
    ghost predicate CommittedAlso(before: seq<SyncRecord>, plan: ObjectPlan, files: seq<Add>)
      reads this
    {
      plan.schema.Some? && committed == before + [SyncRecord(plan.mode, plan.schema.value, files)]
    }

    /** The whole of `syncObject`: initialise, upload, commit, update the state, checkpoint. */
    method SyncObject(meta: ObjectMetadata, allowed: seq<string>, plan: ObjectPlan, w: SyncWorld)
      returns (result: SyncResult, ghost events: seq<Event>, ghost job: Job)
      requires Valid() && plan.objectName == objectName
      requires FreshNames(w.batches, UploadedFiles(store.objects, DataDir(source, objectName)))
      requires |entries| + 4 <= INT64_LIMIT
      requires forall i :: Timely(AttemptsOf(w.commit)(i))
      modifies this, store
      ensures Valid() && old(entries) <= entries
      ensures After(old(View(Ready(meta, allowed, plan))), events, hash) == Some(View(job))
      // It succeeds exactly when the table opens, every nonempty batch is valid and stored, the
      // extraction reports no error, and the commit, if there is one, is acknowledged.
      ensures result.Done? <==> && Opens(plan, old(entries), w) && AllGood(plan, w.batches) && !w.extractionFails
                                && (RowsOf(w.batches) == 0 || CommitSucceeds(w.commit))
      ensures result.Panicked? <==>
                Opens(plan, old(entries), w) && plan.schema.None?
                && exists i :: FirstBad(plan, w.batches, i) && !w.batches[i].strictlyInvalid
      ensures result.Done? ==> job.Finished?
      ensures result.Failed? ==> job == Ready(meta, allowed, plan)
      ensures !result.Done? || RowsOf(w.batches) == 0 ==> state == old(state)
      ensures result.Done? && RowsOf(w.batches) > 0 ==>
                Stored(plan, AddsOf(w.batches), RowsOf(w.batches), w) && CommittedAlso(old(committed), plan, AddsOf(w.batches))
      // Before the commit nothing but the creation of the table is in the log.
      ensures !Opens(plan, old(entries), w) || !AllGood(plan, w.batches) || w.extractionFails || RowsOf(w.batches) == 0 ==>
                committed == old(committed) && (entries == old(entries) || (old(entries) == [] && |entries| == 1))
      ensures old(entries) == [] && entries != [] && plan.schema.Some? ==>
                entries[0] == InitialVersion(source + "_" + objectName, objectName, w.schemaString, w.initTime)
    {
      ghost var w0 := View(Ready(meta, allowed, plan));
      ghost var init, more;
      var table, ready;
      table, ready, init := OpenTable(meta, allowed, plan, w);
      AfterSnoc(w0, [], w0, init, hash);
      events := [] + [init];
      if !ready {
        return Failed, events, Ready(meta, allowed, plan);
      }
      ghost var w1 := View(Extracting(meta, allowed, plan, []));
      result, more, job := ExtractAndCommit(meta, allowed, plan, table, w);
      AfterComposes(w0, events, w1, more, hash);
      events := events + more;
    }

    /** Everything after the table is open. */
    method ExtractAndCommit(meta: ObjectMetadata, allowed: seq<string>, plan: ObjectPlan, table: DeltaTable, w: SyncWorld)
      returns (result: SyncResult, ghost events: seq<Event>, ghost job: Job)
      requires Valid() && OpenedHere(table) && FreshTable(table)
      requires FreshNames(w.batches, UploadedFiles(store.objects, DataDir(source, objectName)))
      requires |entries| + 3 <= INT64_LIMIT
      requires forall i :: Timely(AttemptsOf(w.commit)(i))
      modifies this, store, table`entries, table.circuitBreaker
      ensures Valid() && old(entries) <= entries
      ensures After(old(View(Extracting(meta, allowed, plan, []))), events, hash) == Some(View(job))
      ensures result.Done? <==>
                AllGood(plan, w.batches) && !w.extractionFails && (RowsOf(w.batches) == 0 || CommitSucceeds(w.commit))
      ensures result.Panicked? <==> plan.schema.None? && exists i :: FirstBad(plan, w.batches, i) && !w.batches[i].strictlyInvalid
      ensures result.Done? ==> job.Finished?
      ensures result.Failed? ==> job == Ready(meta, allowed, plan)
      ensures !result.Done? || RowsOf(w.batches) == 0 ==> state == old(state)
      ensures result.Done? && RowsOf(w.batches) > 0 ==>
                Stored(plan, AddsOf(w.batches), RowsOf(w.batches), w) && CommittedAlso(old(committed), plan, AddsOf(w.batches))
      ensures !AllGood(plan, w.batches) || w.extractionFails || RowsOf(w.batches) == 0 ==>
                committed == old(committed) && entries == old(entries)
    {
      ghost var w1 := View(Extracting(meta, allowed, plan, []));
      var staged, totalRecords;
      result, staged, totalRecords, events := UploadBatches(meta, allowed, plan, w.batches);
      if result.Panicked? {
        return result, events, Extracting(meta, allowed, plan, staged);
      }
      if result.Failed? {
        return result, events, Ready(meta, allowed, plan);
      }
      ghost var w2 := View(Extracting(meta, allowed, plan, staged));
      ghost var last;
      result, last, job := FinishExtraction(meta, allowed, plan, staged, totalRecords, table, w);
      AfterComposes(w1, events, w2, last, hash);
      events := events + last;
    }

    /** The error channel first, then the commit unless there is nothing to commit. */
    method FinishExtraction(meta: ObjectMetadata, allowed: seq<string>, plan: ObjectPlan, staged: seq<Add>, totalRecords: int,
                            table: DeltaTable, w: SyncWorld)
      returns (result: SyncResult, ghost events: seq<Event>, ghost job: Job)
      requires Valid() && OpenedHere(table) && FreshTable(table)
      requires totalRecords == Rows(staged) && (staged != [] ==> plan.schema.Some?)
      requires |entries| + 3 <= INT64_LIMIT
      requires forall i :: Timely(AttemptsOf(w.commit)(i))
      modifies this, store, table`entries, table.circuitBreaker
      ensures Valid() && old(entries) <= entries
      ensures After(old(View(Extracting(meta, allowed, plan, staged))), events, hash) == Some(View(job))
      ensures result == if !w.extractionFails && (staged == [] || CommitSucceeds(w.commit)) then Done else Failed
      ensures result.Done? ==> job.Finished?
      ensures !result.Done? ==> job == Ready(meta, allowed, plan)
      ensures !result.Done? || staged == [] ==> state == old(state)
      ensures result.Done? && staged != [] ==>
                Stored(plan, staged, totalRecords, w) && CommittedAlso(old(committed), plan, staged)
      ensures w.extractionFails || staged == [] ==> committed == old(committed) && entries == old(entries)
    {
      ghost var w2 := View(Extracting(meta, allowed, plan, staged));
      if w.extractionFails {
        AfterSnoc(w2, [], w2, Abandon, hash);
        return Failed, [] + [Abandon], Ready(meta, allowed, plan);
      }
      if |staged| == 0 {
        AfterSnoc(w2, [], w2, NoRecords, hash);
        return Done, [] + [NoRecords], Finished;
      }
      result, events, job := CommitStaged(meta, allowed, plan, staged, totalRecords, table, w);
    }

    /** The retried commit, as attempts of the step machine. */
    method CommitFiles(meta: ObjectMetadata, allowed: seq<string>, plan: ObjectPlan, staged: seq<Add>, table: DeltaTable, w: SyncWorld)
      returns (version: Result<int, TableError>, ghost events: seq<Event>, ghost job: Job)
      requires Valid() && OpenedHere(table) && FreshTable(table) && staged != [] && plan.schema.Some?
      requires |entries| + 3 <= INT64_LIMIT
      requires forall i :: Timely(AttemptsOf(w.commit)(i))
      modifies this`entries, this`committed, store, table`entries, table.circuitBreaker
      ensures Valid() && OpenedHere(table)
      ensures After(old(View(Extracting(meta, allowed, plan, staged))), events, hash) == Some(View(job))
      ensures CommitEnds(old(View(Extracting(meta, allowed, plan, staged))), View(job), version.Ok?)
      ensures version.Ok? <==> CommitSucceeds(w.commit)
      ensures version.Ok? ==> version.value == |entries| - 1
    {
      FreshCommitSucceeds(table.circuitBreaker.View(), w.commit);
      ghost var w0 := View(Extracting(meta, allowed, plan, staged));
      ghost var invoked := RunFrom(table.circuitBreaker.View(), 1, table.retryPolicy, AttemptsOf(w.commit)).invoked;
      ghost var x := CommitPath(w0, table.circuitBreaker.View(), table.retryPolicy, w.commit, hash);
      events, job := CommitEvents(invoked, w.commit), x.job;
      version := RunCommit(AddActions(staged), OperationOf(plan), table, w.commit);
      committed := x.committed;
    }

    /** The table's commit, which writes to the log only. */
    method RunCommit(actions: seq<Action>, operation: string, table: DeltaTable, world: int -> CommitWorld)
      returns (version: Result<int, TableError>)
      requires Valid() && OpenedHere(table) && |entries| + 3 <= INT64_LIMIT
      requires forall i :: Timely(AttemptsOf(world)(i))
      modifies this`entries, store, table`entries, table.circuitBreaker
      ensures Valid() && OpenedHere(table)
      ensures var run := old(RunFrom(table.circuitBreaker.View(), 1, table.retryPolicy, AttemptsOf(world)));
              && entries == LogAfter(old(entries), actions, operation, run.invoked, world)
              && (version.Ok? <==> run.end == Success)
      ensures version.Ok? ==> version.value == |entries| - 1
      ensures UploadedFiles(store.objects, DataDir(source, objectName)) == old(UploadedFiles(store.objects, DataDir(source, objectName)))
    {
      ghost var objects := store.objects;
      version := table.Commit(actions, operation, world);
      entries := table.entries;
      LogWritesKeepTheFiles(objects, store.objects, source, objectName);
    }

    /** A commit that fails ends the sync with an error. */
    method CommitOrAbandon(meta: ObjectMetadata, allowed: seq<string>, plan: ObjectPlan, staged: seq<Add>, table: DeltaTable, w: SyncWorld)
      returns (version: Result<int, TableError>, ghost events: seq<Event>)
      requires Valid() && OpenedHere(table) && FreshTable(table) && staged != [] && plan.schema.Some?
      requires |entries| + 3 <= INT64_LIMIT
      requires forall i :: Timely(AttemptsOf(w.commit)(i))
      modifies this`entries, this`committed, store, table`entries, table.circuitBreaker
      ensures Valid() && OpenedHere(table) && old(entries) <= entries
      ensures version.Ok? <==> CommitSucceeds(w.commit)
      ensures After(old(View(Extracting(meta, allowed, plan, staged))), events, hash) ==
              Some(View(if version.Ok? then Job.Committed(meta, allowed, plan, staged, version.value) else Ready(meta, allowed, plan)))
      ensures version.Ok? ==>
                && version.value == |entries| - 1 && IsCommitOf(entries, version.value, staged) && MarkedAs(entries, OperationOf(plan))
                && CommittedAlso(old(committed), plan, staged)
    {
      ghost var w0, job := View(Extracting(meta, allowed, plan, staged)), Finished;
      version, events, job := CommitFiles(meta, allowed, plan, staged, table, w);
      CommitEnded(w0, View(job), version.Ok?);
      if version.Err? {
        AfterAbandoning(w0, events, View(job), hash);
        events := events + [Abandon];
      }
    }

    /** Commit, and only on success the state update and the checkpoint. */
    method CommitStaged(meta: ObjectMetadata, allowed: seq<string>, plan: ObjectPlan, staged: seq<Add>, totalRecords: int,
                        table: DeltaTable, w: SyncWorld)
      returns (result: SyncResult, ghost events: seq<Event>, ghost job: Job)
      requires Valid() && OpenedHere(table) && FreshTable(table)
      requires staged != [] && totalRecords == Rows(staged) && plan.schema.Some?
      requires |entries| + 3 <= INT64_LIMIT
      requires forall i :: Timely(AttemptsOf(w.commit)(i))
      modifies this, store, table`entries, table.circuitBreaker
      ensures Valid() && old(entries) <= entries
      ensures After(old(View(Extracting(meta, allowed, plan, staged))), events, hash) == Some(View(job))
      ensures result == if CommitSucceeds(w.commit) then Done else Failed
      ensures result.Done? ==> job.Finished?
      ensures result.Done? ==> Stored(plan, staged, totalRecords, w) && CommittedAlso(old(committed), plan, staged)
      ensures !result.Done? ==> job == Ready(meta, allowed, plan) && state == old(state)
    {
      ghost var w0 := View(Extracting(meta, allowed, plan, staged));
      var version;
      version, events := CommitOrAbandon(meta, allowed, plan, staged, table, w);
      if version.Err? {
        return Failed, events, Ready(meta, allowed, plan);
      }
      events := AdoptCommit(w0, events, meta, allowed, plan, staged, totalRecords, version.value, table, w);
      result, job := Done, Finished;
    }

    /** The state update after a commit, and the checkpoint that may fail unnoticed. */
    method AdoptCommit(ghost w0: ObjectWorld, ghost before: seq<Event>, meta: ObjectMetadata, allowed: seq<string>,
                       plan: ObjectPlan, staged: seq<Add>, totalRecords: int, version: int, table: DeltaTable, w: SyncWorld)
      returns (ghost events: seq<Event>)
      requires Valid() && OpenedHere(table) && totalRecords == Rows(staged) && 0 <= version < INT64_LIMIT && plan.schema.Some?
      requires After(w0, before, hash) == Some(View(Job.Committed(meta, allowed, plan, staged, version)))
      requires version == |entries| - 1 && IsCommitOf(entries, version, staged) && MarkedAs(entries, OperationOf(plan))
      modifies this`state, this`lineage, store
      ensures Valid()
      ensures After(w0, events, hash) == Some(View(Finished))
      ensures Stored(plan, staged, totalRecords, w)
    {
      AfterSnoc(w0, before, View(Job.Committed(meta, allowed, plan, staged, version)), UpdateState(w.syncTime, w.watermark), hash);
      events := before + [UpdateState(w.syncTime, w.watermark)];
      lineage := (if state.Some? then lineage else []) + [SyncRecord(plan.mode, plan.schema.value, staged)];
      state := Some(StateAfterSync(plan, hash, version, totalRecords, w.syncTime, w.watermark));
      CheckpointNow(version, table, w.checkpoint);
    }

    /** A failed checkpoint is only logged. */
    method CheckpointNow(version: nat, table: DeltaTable, w: CheckpointWorld)
      requires Valid() && OpenedHere(table) && version < |entries| && version < INT64_LIMIT
      modifies store
      ensures Valid()
      ensures UploadedFiles(store.objects, DataDir(source, objectName)) == old(UploadedFiles(store.objects, DataDir(source, objectName)))
      ensures TenthIsCheckpointed(version, w)
    {
      ghost var objects := store.objects;
      var checkpoints := new LegacyCheckpointManager(table);
      var _ := checkpoints.MaybeCheckpoint(version, w);
      LogWritesKeepTheFiles(objects, store.objects, source, objectName);
    }
  }
}

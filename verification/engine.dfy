/** The sync engine as a step machine (internal/sync/engine.go, Run and syncObject).  Every step
    that touches the store or the state is separate, may fail, and may be the last one before a
    crash; objects interleave freely.  One writer per object, distinct object names. */
module SyncEngine {
  import opened Wrappers
  import opened Actions
  import opened LogReplay
  import opened ObjectStores
  import opened DeltaTables
  import opened Schemas
  import opened Planners

  /** A stored object state, with the committed syncs it remembers; the last of them is its own. */
  datatype Tracked = Tracked(state: ObjectState, lineage: seq<SyncRecord>)

  /** Where the sync of one object stands inside a run. */
  datatype Job =
    | NotPlanned
    | Ready(meta: ObjectMetadata, allowed: seq<string>, plan: ObjectPlan)                      // to be tried, or tried again
    | Extracting(meta: ObjectMetadata, allowed: seq<string>, plan: ObjectPlan, staged: seq<Add>)
    | Committing(meta: ObjectMetadata, allowed: seq<string>, plan: ObjectPlan, staged: seq<Add>, landed: bool) // no attempt acknowledged yet
    | Committed(meta: ObjectMetadata, allowed: seq<string>, plan: ObjectPlan, staged: seq<Add>, version: int)
    | Finished

  /** One object: its data files and log in the store, every sync whose commit ever landed in that
      log, its state in memory, its job. */
  datatype ObjectWorld = ObjectWorld(
    uploaded: set<string>, log: seq<seq<Action>>, committed: seq<SyncRecord>, mem: Option<Tracked>, job: Job)

  datatype Event =
    | PlanIt(meta: ObjectMetadata, allowed: seq<string>)
    | Initialize(tableID: string, schemaString: string, listFails: bool, write: WriteOutcome, now: int)
    | UploadFile(filename: string, size: int, rows: int, write: WriteOutcome, now: int)
    | Abandon                                             // syncObject returns an error
    | WriteCommit(write: WriteOutcome, now: int)          // one attempt of Commit
    | UpdateState(syncTime: int, watermark: int)
    | NoRecords
    | GiveUp                                              // the recovery manager stops retrying

  function StateOption(t: Option<Tracked>): Option<ObjectState> {
    if t.None? then None else Some(t.value.state)
  }

  function LineageOf(t: Option<Tracked>): seq<SyncRecord> {
    if t.None? then [] else t.value.lineage
  }

  function OperationOf(plan: ObjectPlan): string {
    if plan.mode == Full then "WRITE (full sync)" else "WRITE"
  }

  predicate CanHappen(w: ObjectWorld, ev: Event, hash: Hash) {
    match ev
    case PlanIt(meta, allowed) =>
      w.job.NotPlanned? && PlanOf(meta, StateOption(w.mem), allowed, hash).mode != Skip
    case Initialize(_, _, _, _, _) => w.job.Ready?
    case UploadFile(filename, _, _, _, _) =>
      // A fresh file name; writing a batch without a schema dereferences nil and ends the process.
      w.job.Extracting? && w.job.plan.schema.Some? && filename !in w.uploaded
    case Abandon => w.job.Extracting? || w.job.Committing?
    case WriteCommit(_, _) =>
      // Staged files were written with a schema.
      (w.job.Extracting? || w.job.Committing?) && w.job.staged != [] && w.job.plan.schema.Some?
    case UpdateState(_, _) => w.job.Committed? && w.job.plan.schema.Some?
    case NoRecords => w.job.Extracting? && w.job.staged == []
    case GiveUp => w.job.Ready?
  }

  function Rows(adds: seq<Add>): int {
    if adds == [] then 0
    else
      var last := adds[|adds| - 1];
      Rows(adds[..|adds| - 1]) + (if last.stats.NumRecords? then last.stats.n else 0)
  }

  /** The job's commit is in the log, and no state names it yet. */
  predicate Outstanding(job: Job) {
    job.Committed? || (job.Committing? && job.landed)
  }

  predicate HasStaged(job: Job) {
    (job.Extracting? || job.Committing? || job.Committed?) && job.plan.schema.Some?
  }

  /** The sync that the job's commit makes. */
  function RecordOf(job: Job): SyncRecord
    requires HasStaged(job)
  {
    SyncRecord(job.plan.mode, job.plan.schema.value, job.staged)
  }

  function CommitVersion(w: ObjectWorld, now: int): seq<Action>
    requires w.job.Extracting? || w.job.Committing?
  {
    AddActions(w.job.staged) + [NewCommitInfoAction(OperationOf(w.job.plan), |w.log| - 1, true, now)]
  }

  /** The committed syncs once the job's commit is in the log: further copies are the same sync. */
  function CommittedThen(w: ObjectWorld): seq<SyncRecord>
    requires HasStaged(w.job)
  {
    if Outstanding(w.job) then w.committed else w.committed + [RecordOf(w.job)]
  }

  function Happen(w: ObjectWorld, ev: Event, hash: Hash): ObjectWorld
    requires CanHappen(w, ev, hash)
  {
    match ev
    case PlanIt(meta, allowed) =>
      w.(job := Ready(meta, allowed, PlanOf(meta, StateOption(w.mem), allowed, hash)))
    case Initialize(id, schemaString, listFails, write, now) =>
      var started := Extracting(w.job.meta, w.job.allowed, w.job.plan, []);
      if w.job.plan.schema.None? then w.(job := started)
      else if listFails then w
      else if w.log != [] then w.(job := started)
      else
        var created := if write.Lost? then w else w.(log := [InitialVersion(id, w.job.plan.objectName, schemaString, now)]);
        if write.Acknowledged? then created.(job := started) else created
    case UploadFile(filename, size, rows, write, now) =>
      var stored := if write.Lost? then w else w.(uploaded := w.uploaded + {filename});
      if write.Acknowledged?
      then stored.(job := Extracting(w.job.meta, w.job.allowed, w.job.plan,
                                     w.job.staged + [NewAdd(filename, size, NumRecords(rows), now)]))
      else stored.(job := Ready(w.job.meta, w.job.allowed, w.job.plan))
    case Abandon => w.(job := Ready(w.job.meta, w.job.allowed, w.job.plan))
    case WriteCommit(write, now) =>
      var landed := if write.Lost? then w else w.(log := w.log + [CommitVersion(w, now)], committed := CommittedThen(w));
      landed.(job := if write.Acknowledged?
                     then Committed(w.job.meta, w.job.allowed, w.job.plan, w.job.staged, |w.log|)
                     else Job.Committing(w.job.meta, w.job.allowed, w.job.plan, w.job.staged, Outstanding(w.job) || !write.Lost?))
    case UpdateState(syncTime, watermark) =>
      var st := StateAfterSync(w.job.plan, hash, w.job.version, Rows(w.job.staged), syncTime, watermark);
      w.(mem := Some(Tracked(st, LineageOf(w.mem) + [RecordOf(w.job)])), job := Finished)
    case NoRecords => w.(job := Finished)
    case GiveUp => w.(job := Finished)
  }

  // ---------------------------------------------------------------- the engine

  datatype Engine = Engine(objects: map<string, ObjectWorld>, saved: map<string, Tracked>, running: bool)

  datatype Step =
    | StartRun(loadFails: bool)              // a failed load starts from an empty state
    | ObjectStep(name: string, ev: Event)
    | Save(write: WriteOutcome)              // ends the run, acknowledged or not
    | Crash                                  // process death, or an early return of Run

  predicate Enabled(e: Engine, step: Step, hash: Hash) {
    match step
    case StartRun(_) => !e.running
    case ObjectStep(o, ev) => e.running && o in e.objects && CanHappen(e.objects[o], ev, hash)
    case Save(_) => e.running && forall o :: o in e.objects ==> e.objects[o].job.Finished? || e.objects[o].job.NotPlanned?
    case Crash => e.running
  }

  function Loaded(e: Engine, loadFails: bool, o: string): Option<Tracked> {
    if loadFails || o !in e.saved then None else Some(e.saved[o])
  }

  function InMemory(e: Engine): map<string, Tracked> {
    map o | o in e.objects && e.objects[o].mem.Some? :: e.objects[o].mem.value
  }

  function Next(e: Engine, step: Step, hash: Hash): Engine
    requires Enabled(e, step, hash)
  {
    match step
    case StartRun(loadFails) =>
      e.(running := true,
         objects := map o | o in e.objects :: e.objects[o].(mem := Loaded(e, loadFails, o), job := NotPlanned))
    case ObjectStep(o, ev) =>
      e.(objects := e.objects[o := Happen(e.objects[o], ev, hash)])
    case Save(write) =>
      e.(running := false, saved := if write.Lost? then e.saved else InMemory(e))
    case Crash =>
      e.(running := false)
  }

  ghost predicate RunsTo(e: Engine, steps: seq<Step>, f: Engine, hash: Hash)
    decreases |steps|, 1
  {
    if steps == [] then e == f else FirstThenRest(e, steps, f, hash)
  }

  ghost predicate FirstThenRest(e: Engine, steps: seq<Step>, f: Engine, hash: Hash)
    requires steps != []
    decreases |steps|, 0
  {
    Enabled(e, steps[0], hash) && RunsTo(Next(e, steps[0], hash), steps[1..], f, hash)
  }

  /** Nothing uploaded, no logs, no saved state. */
  function Start(names: set<string>): Engine {
    Engine(map o | o in names :: ObjectWorld({}, [], [], None, NotPlanned), map[], false)
  }

  // ---------------------------------------------------------------- what storage keeps

  /** The files of all committed syncs, in the order of the commits. */
  function AllFiles(committed: seq<SyncRecord>): seq<Add> {
    if committed == [] then [] else AllFiles(committed[..|committed| - 1]) + committed[|committed| - 1].files
  }

  predicate DistinctPaths(files: seq<Add>) {
    forall i, j :: 0 <= i < j < |files| ==> files[i].path != files[j].path
  }

  predicate PathsIn(files: seq<Add>, uploaded: set<string>) {
    forall i :: 0 <= i < |files| ==> files[i].path in uploaded
  }

  /** The version removes nothing and adds only these files. */
  predicate AddsFrom(actions: seq<Action>, files: seq<Add>) {
    forall i :: 0 <= i < |actions| ==> !actions[i].RemoveAction? && (actions[i].AddAction? ==> actions[i].add in files)
  }

  predicate LogFrom(log: seq<seq<Action>>, files: seq<Add>) {
    forall v :: 0 <= v < |log| ==> AddsFrom(log[v], files)
  }

  ghost predicate AddedIn(log: seq<seq<Action>>, f: Add) {
    exists v :: 0 <= v < |log| && AddAction(f) in log[v]
  }

  ghost predicate AllAdded(log: seq<seq<Action>>, files: seq<Add>) {
    forall i :: 0 <= i < |files| ==> AddedIn(log, files[i])
  }

  /** Version `version` of the log is a commit of exactly these files. */
  ghost predicate IsCommitOf(log: seq<seq<Action>>, version: int, files: seq<Add>) {
    0 <= version < |log| && exists info :: log[version] == AddActions(files) + [CommitInfoAction(info)]
  }

  /** The files of the sync that the state was stored for. */
  function FilesOf(t: Tracked): seq<Add> {
    if t.lineage == [] then [] else t.lineage[|t.lineage| - 1].files
  }

  /** The state names the version that committed its own sync's files, counts their rows, and
      remembers only syncs that were committed. */
  ghost predicate TrackedOk(t: Tracked, log: seq<seq<Action>>, committed: seq<SyncRecord>) {
    && IsCommitOf(log, t.state.deltaVersion, FilesOf(t))
    && FilesOf(t) != [] && Rows(FilesOf(t)) == t.state.totalRecords
    && forall r :: r in t.lineage ==> r in committed
  }

  ghost predicate LastCommitted(w: ObjectWorld) {
    HasStaged(w.job) && w.committed != [] && w.committed[|w.committed| - 1] == RecordOf(w.job) && w.job.staged != []
  }

  ghost predicate JobOk(w: ObjectWorld) {
    match w.job
    case Extracting(_, _, _, staged) => PathsIn(staged, w.uploaded) && DistinctPaths(AllFiles(w.committed) + staged)
    case Committing(_, _, _, staged, landed) =>
      if landed then LastCommitted(w)
      else PathsIn(staged, w.uploaded) && DistinctPaths(AllFiles(w.committed) + staged)
    case Committed(_, _, _, staged, version) =>
      && LastCommitted(w) && version == |w.log| - 1 && IsCommitOf(w.log, version, staged)
      && (w.mem.Some? ==> w.mem.value.state.deltaVersion < version)
    case _ => true
  }

  /** The log adds the files of the committed syncs, each under a path of its own that was uploaded
      before, and nothing else. */
  ghost predicate LogOk(w: ObjectWorld) {
    var files := AllFiles(w.committed);
    && DistinctPaths(files) && PathsIn(files, w.uploaded) && LogFrom(w.log, files) && AllAdded(w.log, files)
    && NoEmptyCommit(w.committed)
  }

  predicate NoEmptyCommit(committed: seq<SyncRecord>) {
    forall k :: 0 <= k < |committed| ==> committed[k].files != []
  }

  ghost predicate ObjectOk(w: ObjectWorld) {
    LogOk(w) && JobOk(w) && (w.mem.Some? ==> TrackedOk(w.mem.value, w.log, w.committed))
  }

  ghost predicate StorageInv(e: Engine) {
    && (forall o :: o in e.objects ==> ObjectOk(e.objects[o]))
    && (forall o :: o in e.saved ==> o in e.objects && TrackedOk(e.saved[o], e.objects[o].log, e.objects[o].committed))
  }

  lemma HistoryOnlyGrows(w: ObjectWorld, ev: Event, hash: Hash)
    requires CanHappen(w, ev, hash)
    ensures w.log <= Happen(w, ev, hash).log && w.committed <= Happen(w, ev, hash).committed
    ensures w.uploaded <= Happen(w, ev, hash).uploaded
  {
  }

  lemma TrackedSurvivesGrowth(t: Tracked, log: seq<seq<Action>>, longer: seq<seq<Action>>, committed: seq<SyncRecord>, more: seq<SyncRecord>)
    requires TrackedOk(t, log, committed) && log <= longer && committed <= more
    ensures TrackedOk(t, longer, more)
  {
    assert longer[t.state.deltaVersion] == log[t.state.deltaVersion];
  }

  lemma EventKeepsObjectOk(w: ObjectWorld, ev: Event, hash: Hash)
    requires ObjectOk(w) && CanHappen(w, ev, hash)
    ensures ObjectOk(Happen(w, ev, hash))
  {
    match ev
    case Initialize(_, _, _, _, _) =>
      InitialisingKeepsLogOk(w, ev, hash);
      MemSurvives(w, ev, hash);
    case UploadFile(_, _, _, _, _) =>
      UploadKeepsJobOk(w, ev, hash);
      MemSurvives(w, ev, hash);
    case WriteCommit(_, _) =>
      AttemptKeepsObjectOk(w, ev, hash);
      MemSurvives(w, ev, hash);
    case UpdateState(_, _) => AdoptingKeepsObjectOk(w, ev, hash);
    case _ =>
  }

  lemma MemSurvives(w: ObjectWorld, ev: Event, hash: Hash)
    requires ObjectOk(w) && CanHappen(w, ev, hash) && !ev.UpdateState?
    ensures var x := Happen(w, ev, hash); x.mem == w.mem && (x.mem.Some? ==> TrackedOk(x.mem.value, x.log, x.committed))
  {
    HistoryOnlyGrows(w, ev, hash);
    if w.mem.Some? {
      TrackedSurvivesGrowth(w.mem.value, w.log, Happen(w, ev, hash).log, w.committed, Happen(w, ev, hash).committed);
    }
  }

  lemma AdoptingKeepsObjectOk(w: ObjectWorld, ev: Event, hash: Hash)
    requires ObjectOk(w) && CanHappen(w, ev, hash) && ev.UpdateState?
    ensures ObjectOk(Happen(w, ev, hash))
  {
    var t := Happen(w, ev, hash).mem.value;
    assert FilesOf(t) == w.job.staged;
    forall r | r in t.lineage ensures r in w.committed {
      assert r in LineageOf(w.mem) || r == RecordOf(w.job);
    }
  }

  lemma InitialisingKeepsLogOk(w: ObjectWorld, ev: Event, hash: Hash)
    requires ObjectOk(w) && CanHappen(w, ev, hash) && ev.Initialize?
    ensures LogOk(Happen(w, ev, hash)) && JobOk(Happen(w, ev, hash))
  {
    assert AllFiles(w.committed) + [] == AllFiles(w.committed);
    if Happen(w, ev, hash).log != w.log {
      FirstVersionKeepsLogOk(w, ev.tableID, w.job.plan.objectName, ev.schemaString, ev.now);
    }
  }

  lemma FirstVersionKeepsLogOk(w: ObjectWorld, tableID: string, name: string, schemaString: string, now: int)
    requires LogOk(w) && w.log == []
    ensures LogOk(w.(log := [InitialVersion(tableID, name, schemaString, now)]))
  {
    if AllFiles(w.committed) != [] {
      FilesNeedALog(w.log, AllFiles(w.committed));
    }
    FirstVersionAddsNothing(tableID, name, schemaString, now);
  }

  lemma FilesNeedALog(log: seq<seq<Action>>, files: seq<Add>)
    requires AllAdded(log, files) && files != []
    ensures log != []
  {
    assert AddedIn(log, files[0]);
  }

  lemma FirstVersionAddsNothing(tableID: string, name: string, schemaString: string, now: int)
    ensures LogFrom([InitialVersion(tableID, name, schemaString, now)], [])
  {
  }

  lemma DistinctSnoc(files: seq<Add>, f: Add, uploaded: set<string>)
    requires DistinctPaths(files) && PathsIn(files, uploaded) && f.path !in uploaded
    ensures DistinctPaths(files + [f])
  {
  }

  lemma PathsInBoth(a: seq<Add>, b: seq<Add>, uploaded: set<string>)
    requires PathsIn(a, uploaded) && PathsIn(b, uploaded)
    ensures PathsIn(a + b, uploaded)
  {
  }

  lemma UploadKeepsJobOk(w: ObjectWorld, ev: Event, hash: Hash)
    requires ObjectOk(w) && CanHappen(w, ev, hash) && ev.UploadFile?
    ensures LogOk(Happen(w, ev, hash)) && JobOk(Happen(w, ev, hash))
  {
    var all, staged := AllFiles(w.committed), w.job.staged;
    var add := NewAdd(ev.filename, ev.size, NumRecords(ev.rows), ev.now);
    PathsInBoth(all, staged, w.uploaded);
    DistinctSnoc(all + staged, add, w.uploaded);
    assert all + (staged + [add]) == (all + staged) + [add];
  }

  /** The files of all syncs once this job's commit has landed. */
  lemma FilesAfterLanding(w: ObjectWorld)
    requires LogOk(w) && JobOk(w) && HasStaged(w.job) && !w.job.Committed? && w.job.staged != []
    ensures var more := CommittedThen(w);
            && more != [] && more[|more| - 1] == RecordOf(w.job)
            && AllFiles(w.committed) <= AllFiles(more)
            && (forall f :: f in w.job.staged ==> f in AllFiles(more))
            && (forall f :: f in AllFiles(more) ==> f in AllFiles(w.committed) || f in w.job.staged)
            && DistinctPaths(AllFiles(more)) && PathsIn(AllFiles(more), w.uploaded) && NoEmptyCommit(more)
  {
    if !Outstanding(w.job) {
      assert CommittedThen(w)[..|w.committed|] == w.committed;
    }
  }

  lemma AttemptKeepsObjectOk(w: ObjectWorld, ev: Event, hash: Hash)
    requires ObjectOk(w) && CanHappen(w, ev, hash) && ev.WriteCommit?
    ensures LogOk(Happen(w, ev, hash)) && JobOk(Happen(w, ev, hash))
  {
    if !ev.write.Lost? {
      LandingKeepsLogOk(w, ev.now);
      LandingKeepsJobOk(w, ev.now);
    }
  }

  /** The world once the job's commit is in the log. */
  function Landed(w: ObjectWorld, now: int): ObjectWorld
    requires (w.job.Extracting? || w.job.Committing?) && HasStaged(w.job)
  {
    w.(log := w.log + [CommitVersion(w, now)], committed := CommittedThen(w))
  }

  /** Acknowledged or not, the job's commit is the last one, and the version it made is the newest. */
  lemma LandingKeepsJobOk(w: ObjectWorld, now: int)
    requires ObjectOk(w) && (w.job.Extracting? || w.job.Committing?) && HasStaged(w.job) && w.job.staged != []
    ensures JobOk(Landed(w, now).(job := Job.Committing(w.job.meta, w.job.allowed, w.job.plan, w.job.staged, true)))
    ensures JobOk(Landed(w, now).(job := Job.Committed(w.job.meta, w.job.allowed, w.job.plan, w.job.staged, |w.log|)))
  {
    FilesAfterLanding(w);
    var info := CommitInfo(now, OperationOf(w.job.plan), map[], |w.log| - 1, true);
    assert CommitVersion(w, now) == AddActions(w.job.staged) + [CommitInfoAction(info)];
    assert IsCommitOf(w.log + [CommitVersion(w, now)], |w.log|, w.job.staged);
  }

  lemma LandingKeepsLogOk(w: ObjectWorld, now: int)
    requires LogOk(w) && JobOk(w) && (w.job.Extracting? || w.job.Committing?) && HasStaged(w.job) && w.job.staged != []
    ensures LogOk(Landed(w, now))
  {
    var version, files := CommitVersion(w, now), AllFiles(CommittedThen(w));
    FilesAfterLanding(w);
    VersionAdds(w.job.staged, version[|w.job.staged|], version, files);
    LogFromMore(w.log, AllFiles(w.committed), version, files);
    forall i | 0 <= i < |files| ensures AddedIn(w.log + [version], files[i]) {
      if files[i] in w.job.staged {
        assert AddAction(files[i]) in (w.log + [version])[|w.log|];
      } else {
        StillAdded(w, w.log + [version], files[i]);
      }
    }
  }

  lemma LogFromMore(log: seq<seq<Action>>, files: seq<Add>, version: seq<Action>, more: seq<Add>)
    requires LogFrom(log, files) && files <= more && AddsFrom(version, more)
    ensures LogFrom(log + [version], more)
  {
    forall v | 0 <= v < |log| ensures AddsFrom((log + [version])[v], more) {
      assert AddsFrom(log[v], files);
    }
  }

  lemma VersionAdds(staged: seq<Add>, info: Action, version: seq<Action>, files: seq<Add>)
    requires version == AddActions(staged) + [info] && info.CommitInfoAction?
    requires forall f :: f in staged ==> f in files
    ensures AddsFrom(version, files)
    ensures forall f :: f in staged ==> AddAction(f) in version
  {
    forall i | 0 <= i < |version| && version[i].AddAction? ensures version[i].add in files {
      assert version[i] == AddAction(staged[i]);
    }
    forall f | f in staged ensures AddAction(f) in version {
      var i :| 0 <= i < |staged| && staged[i] == f;
      assert version[i] == AddAction(f);
    }
  }

  lemma StillAdded(w: ObjectWorld, longer: seq<seq<Action>>, f: Add)
    requires AllAdded(w.log, AllFiles(w.committed)) && f in AllFiles(w.committed) && w.log <= longer
    ensures AddedIn(longer, f)
  {
    var i :| 0 <= i < |AllFiles(w.committed)| && AllFiles(w.committed)[i] == f;
    var v :| 0 <= v < |w.log| && AddAction(f) in w.log[v];
    assert longer[v] == w.log[v];
  }

  lemma StepKeepsStorageInv(e: Engine, step: Step, hash: Hash)
    requires StorageInv(e) && Enabled(e, step, hash)
    ensures StorageInv(Next(e, step, hash))
  {
    match step
    case ObjectStep(o, ev) => ObjectStepKeepsStorageInv(e, o, ev, hash);
    case StartRun(_) =>
    case Save(_) =>
    case Crash =>
  }

  lemma ObjectStepKeepsStorageInv(e: Engine, o: string, ev: Event, hash: Hash)
    requires StorageInv(e) && Enabled(e, ObjectStep(o, ev), hash)
    ensures StorageInv(Next(e, ObjectStep(o, ev), hash))
  {
    EventKeepsObjectOk(e.objects[o], ev, hash);
    HistoryOnlyGrows(e.objects[o], ev, hash);
    StorageInvAfter(e, o, Happen(e.objects[o], ev, hash));
  }

  lemma StorageInvAfter(e: Engine, o: string, x: ObjectWorld)
    requires StorageInv(e) && o in e.objects && ObjectOk(x)
    requires e.objects[o].log <= x.log && e.objects[o].committed <= x.committed
    ensures StorageInv(e.(objects := e.objects[o := x]))
  {
    var objects := e.objects[o := x];
    forall p | p in objects ensures ObjectOk(objects[p]) {
      assert p != o ==> objects[p] == e.objects[p];
    }
    forall p | p in e.saved ensures p in objects && TrackedOk(e.saved[p], objects[p].log, objects[p].committed) {
      if p == o {
        TrackedSurvivesGrowth(e.saved[o], e.objects[o].log, x.log, e.objects[o].committed, x.committed);
      }
    }
  }

  lemma {:induction false} RunKeepsStorageInv(e: Engine, steps: seq<Step>, f: Engine, hash: Hash)
    requires StorageInv(e) && RunsTo(e, steps, f, hash)
    ensures StorageInv(f)
    decreases |steps|
  {
    if steps != [] {
      assert FirstThenRest(e, steps, f, hash);
      StepKeepsStorageInv(e, steps[0], hash);
      RunKeepsStorageInv(Next(e, steps[0], hash), steps[1..], f, hash);
    }
  }

  // ---------------------------------------------------------------- what snapshots hold

  ghost predicate ReplaysFrom(s: TableState, files: seq<Add>) {
    forall path :: path in s.files ==> s.files[path] in files && s.files[path].path == path
  }

  /** Replaying versions that only add keeps every file, adds exactly the named ones, and invents
      none. */
  lemma {:induction false} AddingReplay(s: TableState, actions: seq<Action>, files: seq<Add>, f: Add)
    requires AddsFrom(actions, files) && ReplaysFrom(s, files) && DistinctPaths(files) && f in files
    ensures ReplaysFrom(Replay(s, actions), files)
    ensures f.path in Replay(s, actions).files <==> f.path in s.files || AddAction(f) in actions
  {
    if actions != [] {
      var front, last := actions[..|actions| - 1], actions[|actions| - 1];
      AddingReplay(s, front, files, f);
      assert actions == front + [last];
      if last.AddAction? && last.add.path == f.path {
        OnePath(files, last.add, f);
      }
    }
  }

  lemma OnePath(files: seq<Add>, f: Add, g: Add)
    requires DistinctPaths(files) && f in files && g in files && f.path == g.path
    ensures f == g
  {
  }

  /** A snapshot holds exactly the files its versions added, each as it was added. */
  lemma {:induction false} SnapshotHoldsWhatWasAdded(log: seq<seq<Action>>, files: seq<Add>, f: Add)
    requires LogFrom(log, files) && DistinctPaths(files) && f in files
    ensures ReplaysFrom(StateOf(log), files)
    ensures f.path in StateOf(log).files <==> AddedIn(log, f)
    ensures f.path in StateOf(log).files ==> StateOf(log).files[f.path] == f
  {
    if log != [] {
      var front, last := log[..|log| - 1], log[|log| - 1];
      SnapshotHoldsWhatWasAdded(front, files, f);
      StateOfSnoc(front, last);
      assert log == front + [last];
      AddingReplay(StateOf(front), last, files, f);
      if AddedIn(front, f) {
        var v :| 0 <= v < |front| && AddAction(f) in front[v];
        assert log[v] == front[v];
      }
      if AddAction(f) in last {
        assert log[|log| - 1] == last;
      }
      if f.path in StateOf(log).files {
        OnePath(files, StateOf(log).files[f.path], f);
      }
    }
  }

  /** The latest snapshot's files are exactly those of all syncs whose commit ever landed, each once
      and as it was committed. */
  lemma SnapshotIsAllCommittedFiles(w: ObjectWorld)
    requires LogOk(w)
    ensures Lists(AllFiles(w.committed), StateOf(w.log).files)
  {
    var files, s := AllFiles(w.committed), StateOf(w.log);
    forall i | 0 <= i < |files| ensures files[i].path in s.files && s.files[files[i].path] == files[i] {
      SnapshotHoldsWhatWasAdded(w.log, files, files[i]);
    }
    if files == [] {
      NoFilesWithoutCommits(w.log);
    } else {
      SnapshotHoldsWhatWasAdded(w.log, files, files[0]);
    }
  }

  lemma {:induction false} NoFilesWithoutCommits(log: seq<seq<Action>>)
    requires LogFrom(log, [])
    ensures StateOf(log).files == map[]
  {
    if log != [] {
      var front, last := log[..|log| - 1], log[|log| - 1];
      NoFilesWithoutCommits(front);
      StateOfSnoc(front, last);
      assert log == front + [last];
      NothingAdded(StateOf(front), last);
    }
  }

  lemma {:induction false} NothingAdded(s: TableState, actions: seq<Action>)
    requires AddsFrom(actions, []) && s.files == map[]
    ensures Replay(s, actions).files == map[]
  {
    if actions != [] {
      NothingAdded(s, actions[..|actions| - 1]);
    }
  }

  lemma PrefixFrom(log: seq<seq<Action>>, files: seq<Add>, n: nat)
    requires LogFrom(log, files) && n <= |log|
    ensures LogFrom(log[..n], files)
  {
  }

  lemma ActiveFilesAreUploaded(w: ObjectWorld, n: nat, path: string)
    requires LogOk(w) && n <= |w.log| && path in StateOf(w.log[..n]).files
    ensures path in w.uploaded
  {
    var files := AllFiles(w.committed);
    PrefixFrom(w.log, files, n);
    if files == [] {
      NoFilesWithoutCommits(w.log[..n]);
    } else {
      SnapshotHoldsWhatWasAdded(w.log[..n], files, files[0]);
      assert StateOf(w.log[..n]).files[path] in files;
    }
  }

  /** No full sync and nothing else removes a file: what one version added stays in every later
      snapshot, as it was added. */
  lemma AddedFilesStayActive(w: ObjectWorld, v: nat, n: nat, f: Add)
    requires LogOk(w) && v < n <= |w.log| && AddAction(f) in w.log[v]
    ensures f.path in StateOf(w.log[..n]).files && StateOf(w.log[..n]).files[f.path] == f
  {
    var files := AllFiles(w.committed);
    PrefixFrom(w.log, files, n);
    assert f in files by {
      var i :| 0 <= i < |w.log[v]| && w.log[v][i] == AddAction(f);
      assert AddsFrom(w.log[v], files);
    }
    assert w.log[..n][v] == w.log[v];
    SnapshotHoldsWhatWasAdded(w.log[..n], files, f);
  }

  /** The state names a version that exists, which is the commit of exactly its own sync's files and
      of as many rows as it counts, and those files are in that version's snapshot and in every
      later one. */
  ghost predicate NamesItsCommit(t: Tracked, log: seq<seq<Action>>) {
    && IsCommitOf(log, t.state.deltaVersion, FilesOf(t))
    && FilesOf(t) != [] && Rows(FilesOf(t)) == t.state.totalRecords
    && forall f, n :: f in FilesOf(t) && t.state.deltaVersion < n <= |log| ==>
         f.path in StateOf(log[..n]).files && StateOf(log[..n]).files[f.path] == f
  }

  lemma TrackedNamesItsCommit(t: Tracked, w: ObjectWorld)
    requires LogOk(w) && TrackedOk(t, w.log, w.committed)
    ensures NamesItsCommit(t, w.log)
  {
    var v, files := t.state.deltaVersion, FilesOf(t);
    var info :| w.log[v] == AddActions(files) + [CommitInfoAction(info)];
    VersionAdds(files, CommitInfoAction(info), w.log[v], files);
    forall f, n | f in files && v < n <= |w.log|
      ensures f.path in StateOf(w.log[..n]).files && StateOf(w.log[..n]).files[f.path] == f
    {
      AddedFilesStayActive(w, v, n, f);
    }
  }

  /** In every reachable state, whatever failed and wherever the engine crashed: every path that
      is active in any snapshot of any object was uploaded; the latest snapshot holds exactly the
      files of all syncs whose commit landed; and every state, in memory or saved, names the
      version that committed its own sync's files, which every snapshot since holds. */
  lemma EveryReachableStateIsSafe(names: set<string>, steps: seq<Step>, e: Engine, hash: Hash)
    requires RunsTo(Start(names), steps, e, hash)
    ensures forall o, n, path ::
      o in e.objects && 0 <= n <= |e.objects[o].log| && path in StateOf(e.objects[o].log[..n]).files
      ==> path in e.objects[o].uploaded
    ensures forall o :: o in e.objects ==> Lists(AllFiles(e.objects[o].committed), StateOf(e.objects[o].log).files)
    ensures forall o :: o in e.objects && e.objects[o].mem.Some? ==> NamesItsCommit(e.objects[o].mem.value, e.objects[o].log)
    ensures forall o :: o in e.saved ==> o in e.objects && NamesItsCommit(e.saved[o], e.objects[o].log)
  {
    RunKeepsStorageInv(Start(names), steps, e, hash);
    forall o, n, path | o in e.objects && 0 <= n <= |e.objects[o].log| && path in StateOf(e.objects[o].log[..n]).files
      ensures path in e.objects[o].uploaded
    {
      ActiveFilesAreUploaded(e.objects[o], n, path);
    }
    forall o | o in e.objects ensures Lists(AllFiles(e.objects[o].committed), StateOf(e.objects[o].log).files) {
      SnapshotIsAllCommittedFiles(e.objects[o]);
    }
    forall o | o in e.objects && e.objects[o].mem.Some? ensures NamesItsCommit(e.objects[o].mem.value, e.objects[o].log) {
      TrackedNamesItsCommit(e.objects[o].mem.value, e.objects[o]);
    }
    forall o | o in e.saved ensures NamesItsCommit(e.saved[o], e.objects[o].log) {
      TrackedNamesItsCommit(e.saved[o], e.objects[o]);
    }
  }

  /** A remembered state changes in one event only, which adopts the newest version. */
  lemma OnlyAdoptingMovesTheWatermark(w: ObjectWorld, ev: Event, hash: Hash)
    requires ObjectOk(w) && CanHappen(w, ev, hash) && Happen(w, ev, hash).mem != w.mem
    ensures ev.UpdateState? && w.job.Committed?
    ensures var before, after := w.mem, Happen(w, ev, hash).mem;
            && after.Some?
            && after.value.state.watermarkValue == ev.watermark
            && after.value.state.lastSyncTime == ev.syncTime && after.value.state.watermarkField == w.job.plan.watermarkField
            && after.value.state.deltaVersion == |w.log| - 1
            && FilesOf(after.value) == w.job.staged
            && NamesItsCommit(after.value, w.log)
            && (before.Some? ==> before.value.state.deltaVersion < after.value.state.deltaVersion)
  {
    OnlyAdoptingChangesMem(w, ev, hash);
    AdoptingKeepsObjectOk(w, ev, hash);
    TrackedNamesItsCommit(Happen(w, ev, hash).mem.value, Happen(w, ev, hash));
  }

  lemma OnlyAdoptingChangesMem(w: ObjectWorld, ev: Event, hash: Hash)
    requires CanHappen(w, ev, hash)
    ensures Happen(w, ev, hash).mem != w.mem ==> ev.UpdateState? && w.job.Committed?
  {
  }

  /** Within a run, an object's remembered state - its watermark above all - changes in one step
      only, and that step adopts the newest version, which is the commit of the files that this
      very job staged. */
  lemma WatermarkMovesOnlyWithACommit(names: set<string>, steps: seq<Step>, e: Engine, step: Step, o: string, hash: Hash)
    requires RunsTo(Start(names), steps, e, hash) && Enabled(e, step, hash)
    requires !step.StartRun? && o in e.objects
    requires Next(e, step, hash).objects[o].mem != e.objects[o].mem
    ensures step.ObjectStep? && step.name == o && step.ev.UpdateState? && e.objects[o].job.Committed?
    ensures var before, after := e.objects[o].mem, Next(e, step, hash).objects[o].mem;
            && after.Some?
            && after.value.state.watermarkValue == step.ev.watermark
            && after.value.state.lastSyncTime == step.ev.syncTime
            && after.value.state.watermarkField == e.objects[o].job.plan.watermarkField
            && after.value.state.deltaVersion == |e.objects[o].log| - 1
            && FilesOf(after.value) == e.objects[o].job.staged
            && NamesItsCommit(after.value, e.objects[o].log)
            && (before.Some? ==> before.value.state.deltaVersion < after.value.state.deltaVersion)
  {
    RunKeepsStorageInv(Start(names), steps, e, hash);
    OnlyAdoptingMovesTheWatermark(e.objects[o], step.ev, hash);
  }

  // ---------------------------------------------------------------- the allow list

  /** A job is about an object that its run's allow list names, if there is one. */
  predicate JobAllowed(job: Job) {
    match job
    case Ready(meta, allowed, plan) => Allowed(meta, allowed, plan)
    case Extracting(meta, allowed, plan, _) => Allowed(meta, allowed, plan)
    case Committing(meta, allowed, plan, _, _) => Allowed(meta, allowed, plan)
    case Committed(meta, allowed, plan, _, _) => Allowed(meta, allowed, plan)
    case _ => true
  }

  predicate Allowed(meta: ObjectMetadata, allowed: seq<string>, plan: ObjectPlan) {
    (allowed == [] || meta.name in allowed) && plan.mode != Skip && plan.objectName == meta.name
  }

  lemma EventKeepsAllowed(w: ObjectWorld, ev: Event, hash: Hash)
    requires JobAllowed(w.job) && CanHappen(w, ev, hash)
    ensures JobAllowed(Happen(w, ev, hash).job)
  {
    if ev.PlanIt? {
      SkippedExactlyWhen(ev.meta, StateOption(w.mem), ev.allowed, hash);
    }
  }

  lemma {:induction false} RunKeepsAllowed(e: Engine, steps: seq<Step>, f: Engine, hash: Hash)
    requires (forall o :: o in e.objects ==> JobAllowed(e.objects[o].job)) && RunsTo(e, steps, f, hash)
    ensures forall o :: o in f.objects ==> JobAllowed(f.objects[o].job)
    decreases |steps|
  {
    if steps != [] {
      assert FirstThenRest(e, steps, f, hash);
      if steps[0].ObjectStep? {
        EventKeepsAllowed(e.objects[steps[0].name], steps[0].ev, hash);
      }
      RunKeepsAllowed(Next(e, steps[0], hash), steps[1..], f, hash);
    }
  }

  /** Whatever is being synced in any reachable state is on its run's allow list. */
  lemma OnlyAllowedObjectsAreSynced(names: set<string>, steps: seq<Step>, e: Engine, hash: Hash)
    requires RunsTo(Start(names), steps, e, hash)
    ensures forall o :: o in e.objects ==> JobAllowed(e.objects[o].job)
  {
    RunKeepsAllowed(Start(names), steps, e, hash);
  }

  lemma PlannedIsAllowed(w: ObjectWorld, ev: Event, hash: Hash)
    requires CanHappen(w, ev, hash) && ev.PlanIt?
    ensures ev.allowed == [] || ev.meta.name in ev.allowed
  {
    SkippedExactlyWhen(ev.meta, StateOption(w.mem), ev.allowed, hash);
  }

  /** If the step plans this object, its allow list leaves it out. */
  predicate LeavesOut(step: Step, o: string) {
    step.ObjectStep? && step.name == o && step.ev.PlanIt? ==> step.ev.allowed != [] && step.ev.meta.name !in step.ev.allowed
  }

  predicate LeftOut(steps: seq<Step>, o: string) {
    forall i :: 0 <= i < |steps| ==> LeavesOut(steps[i], o)
  }

  lemma LeftOutStep(e: Engine, step: Step, o: string, hash: Hash)
    requires o in e.objects && Enabled(e, step, hash) && LeavesOut(step, o)
    requires e.running ==> e.objects[o].job.NotPlanned?
    ensures var f := Next(e, step, hash);
            && o in f.objects && (f.running ==> f.objects[o].job.NotPlanned?)
            && f.objects[o].log == e.objects[o].log && f.objects[o].uploaded == e.objects[o].uploaded
            && f.objects[o].committed == e.objects[o].committed
  {
    if step.ObjectStep? && step.ev.PlanIt? {
      PlannedIsAllowed(e.objects[step.name], step.ev, hash);
    }
  }

  /** Over any runs and crashes, an object that every allow list leaves out is not touched. */
  lemma {:induction false} LeftOutObjectsAreUntouched(e: Engine, steps: seq<Step>, f: Engine, o: string, hash: Hash)
    requires o in e.objects && RunsTo(e, steps, f, hash) && LeftOut(steps, o)
    requires e.running ==> e.objects[o].job.NotPlanned?
    ensures o in f.objects
    ensures f.objects[o].log == e.objects[o].log && f.objects[o].uploaded == e.objects[o].uploaded
    ensures f.objects[o].committed == e.objects[o].committed
    decreases |steps|
  {
    if steps != [] {
      assert FirstThenRest(e, steps, f, hash);
      LeftOutStep(e, steps[0], o, hash);
      LeftOutObjectsAreUntouched(Next(e, steps[0], hash), steps[1..], f, o, hash);
    }
  }
}

/** What the engine's runs do to the history of an object (internal/sync/engine.go, planner.go,
    state.go): which committed syncs its state still remembers, what that means for the schema
    version and for incremental syncs, and what the table holds of all of them. */
module SyncHistories {
  import opened Wrappers
  import opened Actions
  import opened LogReplay
  import opened ObjectStores
  import opened DeltaTables
  import opened Schemas
  import opened Planners
  import opened CommitEras
  import opened SyncEngine
  import opened ObjectSyncs

  // ---------------------------------------------------------------- what planning keeps

  /** The sources describe objects without duplicate field names. */
  predicate DistinctMeta(meta: ObjectMetadata) {
    meta.schema.Some? ==> DistinctNames(meta.schema.value.fields)
  }

  ghost predicate TrackedHistory(t: Tracked, hash: Hash) {
    Describes(t.state, t.lineage, hash)
  }

  predicate PlannedFrom(meta: ObjectMetadata, allowed: seq<string>, plan: ObjectPlan, mem: Option<Tracked>, hash: Hash) {
    && DistinctMeta(meta)
    && plan == PlanOf(meta, StateOption(mem), allowed, hash)
    && plan.mode != Skip
  }

  ghost predicate JobHistory(w: ObjectWorld, hash: Hash) {
    match w.job
    case Ready(meta, allowed, plan) => PlannedFrom(meta, allowed, plan, w.mem, hash)
    case Extracting(meta, allowed, plan, _) => PlannedFrom(meta, allowed, plan, w.mem, hash)
    case Committing(meta, allowed, plan, _, _) => PlannedFrom(meta, allowed, plan, w.mem, hash)
    case Committed(meta, allowed, plan, _, _) => PlannedFrom(meta, allowed, plan, w.mem, hash)
    case _ => true
  }

  ghost predicate ObjectHistory(w: ObjectWorld, hash: Hash) {
    JobHistory(w, hash) && (w.mem.Some? ==> TrackedHistory(w.mem.value, hash))
  }

  ghost predicate HistoryInv(e: Engine, hash: Hash) {
    && (forall o :: o in e.objects ==> ObjectHistory(e.objects[o], hash))
    && (forall o :: o in e.saved ==> TrackedHistory(e.saved[o], hash))
  }

  predicate DistinctSteps(steps: seq<Step>) {
    forall i :: 0 <= i < |steps| && steps[i].ObjectStep? && steps[i].ev.PlanIt? ==> DistinctMeta(steps[i].ev.meta)
  }

  lemma PlanCarriesTheSchema(meta: ObjectMetadata, st: Option<ObjectState>, allowed: seq<string>, hash: Hash)
    requires PlanOf(meta, st, allowed, hash).mode != Skip
    ensures PlanOf(meta, st, allowed, hash).schema == meta.schema
  {
  }

  lemma UpdateKeepsHistory(w: ObjectWorld, ev: Event, hash: Hash)
    requires CollisionFree(hash) && ObjectHistory(w, hash) && CanHappen(w, ev, hash) && ev.UpdateState?
    ensures ObjectHistory(Happen(w, ev, hash), hash)
  {
    var job := w.job;
    PlanCarriesTheSchema(job.meta, StateOption(w.mem), job.allowed, hash);
    PlannedSyncExtendsHistory(job.meta, StateOption(w.mem), LineageOf(w.mem), job.allowed, hash,
                              job.staged, job.version, Rows(job.staged), ev.syncTime, ev.watermark);
  }

  lemma EventKeepsHistory(w: ObjectWorld, ev: Event, hash: Hash)
    requires CollisionFree(hash) && ObjectHistory(w, hash) && CanHappen(w, ev, hash)
    requires ev.PlanIt? ==> DistinctMeta(ev.meta)
    ensures ObjectHistory(Happen(w, ev, hash), hash)
  {
    if ev.UpdateState? {
      UpdateKeepsHistory(w, ev, hash);
    } else {
      OnlyAdoptingChangesMem(w, ev, hash);
    }
  }

  lemma {:induction false} RunKeepsHistory(e: Engine, steps: seq<Step>, f: Engine, hash: Hash)
    requires CollisionFree(hash) && HistoryInv(e, hash) && DistinctSteps(steps) && RunsTo(e, steps, f, hash)
    ensures HistoryInv(f, hash)
    decreases |steps|
  {
    if steps != [] {
      assert FirstThenRest(e, steps, f, hash);
      var next := Next(e, steps[0], hash);
      if steps[0].ObjectStep? {
        EventKeepsHistory(e.objects[steps[0].name], steps[0].ev, hash);
      }
      assert HistoryInv(next, hash);
      RunKeepsHistory(next, steps[1..], f, hash);
    }
  }

  // ---------------------------------------------------------------- which commits are remembered

  /** Kept from the steps alone, for one object: whether its state in memory (with the commit still
      under way) and its saved state remember every commit that landed, whether a landed commit is
      not adopted yet, and whether any landed at all. */
  datatype Books = Books(memory: bool, saved: bool, outstanding: bool, any: bool)

  const NEW_BOOKS := Books(true, true, false, false)

  /** A landed commit is owed to the saved state until it is adopted and a save lands; abandoning it
      loses it for memory; a new run remembers what was saved, or nothing when the load fails. */
  function Booked(b: Books, step: Step, o: string): Books {
    match step
    case ObjectStep(p, ev) =>
      if p != o then b
      else (match ev
            case WriteCommit(write, _) => if write.Lost? then b else b.(saved := false, outstanding := true, any := true)
            case UpdateState(_, _) => b.(outstanding := false)
            case Abandon => b.(memory := b.memory && !b.outstanding, outstanding := false)
            case _ => b)
    case StartRun(loadFails) => b.(memory := if loadFails then !b.any else b.saved, outstanding := false)
    case Save(write) => if write.Lost? then b else b.(saved := b.memory)
    case Crash => b
  }

  function Keep(b: Books, steps: seq<Step>, o: string): Books
    decreases |steps|
  {
    if steps == [] then b else Keep(Booked(b, steps[0], o), steps[1..], o)
  }

  function SavedLineage(e: Engine, o: string): seq<SyncRecord> {
    if o in e.saved then e.saved[o].lineage else []
  }

  /** The commit of the job under way, if it landed. */
  function UnderWay(job: Job): seq<SyncRecord> {
    if Outstanding(job) && HasStaged(job) then [RecordOf(job)] else []
  }

  function InMemoryLineage(w: ObjectWorld): seq<SyncRecord> {
    LineageOf(w.mem) + UnderWay(w.job)
  }

  /** The books are right, and what is not remembered is missing for good. */
  ghost predicate BooksRight(b: Books, w: ObjectWorld, saved: seq<SyncRecord>) {
    && (b.outstanding <==> Outstanding(w.job))
    && (Outstanding(w.job) ==> HasStaged(w.job))
    && (b.any <==> w.committed != [])
    && (b.outstanding ==> !b.saved)
    && (if b.memory then InMemoryLineage(w) == w.committed else |InMemoryLineage(w)| < |w.committed|)
    && (if b.saved then saved == w.committed else |saved| < |w.committed|)
  }

  /** The event is the first write of the job's commit that lands. */
  predicate Lands(w: ObjectWorld, ev: Event) {
    ev.WriteCommit? && !ev.write.Lost? && !Outstanding(w.job)
  }

  /** How one event changes what is committed and what memory knows of it. */
  lemma EffectOnMemory(w: ObjectWorld, ev: Event, hash: Hash)
    requires CanHappen(w, ev, hash) && (Outstanding(w.job) ==> HasStaged(w.job))
    ensures var x := Happen(w, ev, hash);
            && (Outstanding(x.job) ==> HasStaged(x.job))
            && (Outstanding(x.job) <==> Lands(w, ev) || (Outstanding(w.job) && !ev.UpdateState? && !ev.Abandon?))
            && if Lands(w, ev)
               then HasStaged(w.job) && x.committed == w.committed + [RecordOf(w.job)]
                    && InMemoryLineage(x) == InMemoryLineage(w) + [RecordOf(w.job)]
               else x.committed == w.committed
                    && InMemoryLineage(x) == if ev.Abandon? then LineageOf(w.mem) else InMemoryLineage(w)
  {
  }

  lemma EventKeepsBooks(b: Books, w: ObjectWorld, saved: seq<SyncRecord>, o: string, ev: Event, hash: Hash)
    requires BooksRight(b, w, saved) && CanHappen(w, ev, hash)
    ensures BooksRight(Booked(b, ObjectStep(o, ev), o), Happen(w, ev, hash), saved)
  {
    EffectOnMemory(w, ev, hash);
  }

  lemma StepKeepsBooks(b: Books, e: Engine, step: Step, o: string, hash: Hash)
    requires o in e.objects && BooksRight(b, e.objects[o], SavedLineage(e, o)) && Enabled(e, step, hash)
    ensures o in Next(e, step, hash).objects
    ensures BooksRight(Booked(b, step, o), Next(e, step, hash).objects[o], SavedLineage(Next(e, step, hash), o))
  {
    match step
    case ObjectStep(p, ev) =>
      if p == o {
        EventKeepsBooks(b, e.objects[o], SavedLineage(e, o), o, ev, hash);
      }
    case StartRun(loadFails) =>
      assert InMemoryLineage(Next(e, step, hash).objects[o]) == if loadFails then [] else SavedLineage(e, o);
    case Save(write) =>
      assert InMemoryLineage(e.objects[o]) == LineageOf(e.objects[o].mem);
    case Crash =>
  }

  lemma {:induction false} RunKeepsBooks(b: Books, e: Engine, steps: seq<Step>, f: Engine, o: string, hash: Hash)
    requires o in e.objects && BooksRight(b, e.objects[o], SavedLineage(e, o)) && RunsTo(e, steps, f, hash)
    ensures o in f.objects && BooksRight(Keep(b, steps, o), f.objects[o], SavedLineage(f, o))
    decreases |steps|
  {
    if steps != [] {
      assert FirstThenRest(e, steps, f, hash);
      StepKeepsBooks(b, e, steps[0], o, hash);
      RunKeepsBooks(Booked(b, steps[0], o), Next(e, steps[0], hash), steps[1..], f, o, hash);
    }
  }

  /** After any history of runs, crashes, lost writes and failed loads, the saved state remembers
      exactly the committed syncs if and only if the books say so: every landed commit was adopted,
      a save landed after it and before the next run began, and no state saved since was built on
      a failed load.  The same for memory. */
  lemma RememberedIsCommittedExactlyWhen(names: set<string>, steps: seq<Step>, e: Engine, o: string, hash: Hash)
    requires RunsTo(Start(names), steps, e, hash) && o in names
    ensures o in e.objects
    ensures SavedLineage(e, o) == e.objects[o].committed <==> Keep(NEW_BOOKS, steps, o).saved
    ensures InMemoryLineage(e.objects[o]) == e.objects[o].committed <==> Keep(NEW_BOOKS, steps, o).memory
    ensures forall r :: r in SavedLineage(e, o) ==> r in e.objects[o].committed
  {
    assert InMemoryLineage(Start(names).objects[o]) == [];
    RunKeepsBooks(NEW_BOOKS, Start(names), steps, e, o, hash);
    OnlyCommittedIsSaved(names, steps, e, o, hash);
  }

  lemma OnlyCommittedIsSaved(names: set<string>, steps: seq<Step>, e: Engine, o: string, hash: Hash)
    requires RunsTo(Start(names), steps, e, hash)
    ensures o in e.saved ==> o in e.objects && forall r :: r in e.saved[o].lineage ==> r in e.objects[o].committed
  {
    RunKeepsStorageInv(Start(names), steps, e, hash);
  }

  lemma {:induction false} SameObjects(e: Engine, steps: seq<Step>, f: Engine, hash: Hash)
    requires RunsTo(e, steps, f, hash)
    ensures f.objects.Keys == e.objects.Keys
    decreases |steps|
  {
    if steps != [] {
      assert FirstThenRest(e, steps, f, hash);
      SameObjects(Next(e, steps[0], hash), steps[1..], f, hash);
    }
  }

  // ---------------------------------------------------------------- remembered syncs among the committed ones

  /** What is remembered, in memory and saved, are committed syncs in the order of their commits. */
  ghost predicate RemembersInOrder(w: ObjectWorld, saved: seq<SyncRecord>) {
    && (Outstanding(w.job) ==> HasStaged(w.job))
    && IsKeptFrom(InMemoryLineage(w), w.committed) && IsKeptFrom(saved, w.committed)
  }

  lemma EventKeepsOrder(w: ObjectWorld, saved: seq<SyncRecord>, ev: Event, hash: Hash)
    requires RemembersInOrder(w, saved) && CanHappen(w, ev, hash)
    ensures RemembersInOrder(Happen(w, ev, hash), saved)
  {
    EffectOnMemory(w, ev, hash);
    if Lands(w, ev) {
      KeptFromLonger(InMemoryLineage(w), w.committed, RecordOf(w.job));
      KeptFromLonger(saved, w.committed, RecordOf(w.job));
    } else if ev.Abandon? && Outstanding(w.job) {
      KeptWithoutTheLast(LineageOf(w.mem), RecordOf(w.job), w.committed);
    } else if ev.Abandon? {
      assert InMemoryLineage(w) == LineageOf(w.mem);
    }
  }

  lemma StepKeepsOrder(e: Engine, step: Step, o: string, hash: Hash)
    requires o in e.objects && RemembersInOrder(e.objects[o], SavedLineage(e, o)) && Enabled(e, step, hash)
    ensures o in Next(e, step, hash).objects
    ensures RemembersInOrder(Next(e, step, hash).objects[o], SavedLineage(Next(e, step, hash), o))
  {
    match step
    case ObjectStep(p, ev) =>
      if p == o {
        EventKeepsOrder(e.objects[o], SavedLineage(e, o), ev, hash);
      }
    case StartRun(loadFails) =>
      NothingKept(e.objects[o].committed);
      assert InMemoryLineage(Next(e, step, hash).objects[o]) == if loadFails then [] else SavedLineage(e, o);
    case Save(write) =>
      assert InMemoryLineage(e.objects[o]) == LineageOf(e.objects[o].mem);
    case Crash =>
  }

  lemma {:induction false} RunKeepsOrder(e: Engine, steps: seq<Step>, f: Engine, o: string, hash: Hash)
    requires o in e.objects && RemembersInOrder(e.objects[o], SavedLineage(e, o)) && RunsTo(e, steps, f, hash)
    ensures o in f.objects && RemembersInOrder(f.objects[o], SavedLineage(f, o))
    decreases |steps|
  {
    if steps != [] {
      assert FirstThenRest(e, steps, f, hash);
      StepKeepsOrder(e, steps[0], o, hash);
      RunKeepsOrder(Next(e, steps[0], hash), steps[1..], f, o, hash);
    }
  }

  lemma CommitsDoNotRepeat(w: ObjectWorld)
    requires LogOk(w)
    ensures NoRepeats(w.committed)
  {
    forall i, j | 0 <= i < j < |w.committed| ensures w.committed[i] != w.committed[j] {
      var f, g := w.committed[i].files[0], w.committed[j].files[0];
      SyncsShareNoPath(w.committed, i, j, f, g);
    }
  }

  /** Every field of the last full sync, with its type, is in the schema. */
  ghost predicate KeepsLastFull(history: seq<SyncRecord>, s: Schema) {
    history != [] && history[LastFull(history)].mode == Full && NonBreaking(history[LastFull(history)].schema, s)
  }

  /** The last full sync among all committed ones is one of these. */
  predicate KnowsLastFull(remembered: seq<SyncRecord>, committed: seq<SyncRecord>) {
    committed != [] && committed[LastFull(committed)] in remembered
  }

  lemma RememberedSchema(t: Tracked, hash: Hash)
    requires TrackedHistory(t, hash)
    ensures t.lineage != [] && t.lineage[0].mode == Full
    ensures t.state.previousSchema.Some? && t.state.schemaVersion == 1 + SchemaChanges(t.lineage)
    ensures KeepsLastFull(t.lineage, t.state.previousSchema.value)
  {
    IncrementalsKeepTheFullSchema(t.lineage);
  }

  lemma LastFullCarriesOver(remembered: seq<SyncRecord>, committed: seq<SyncRecord>, s: Schema)
    requires IsKeptFrom(remembered, committed) && NoRepeats(committed) && remembered != [] && remembered[0].mode == Full
    requires KeepsLastFull(remembered, s) && KnowsLastFull(remembered, committed)
    ensures KeepsLastFull(committed, s)
  {
    LastFullIsKept(remembered, committed);
  }

  /** What holds of one object in every reachable state. */
  lemma ReachableObject(names: set<string>, steps: seq<Step>, e: Engine, o: string, hash: Hash)
    requires CollisionFree(hash) && DistinctSteps(steps)
    requires RunsTo(Start(names), steps, e, hash) && (o in e.saved || o in e.objects)
    ensures o in e.objects && ObjectHistory(e.objects[o], hash) && ObjectOk(e.objects[o])
    ensures o in e.saved ==> TrackedHistory(e.saved[o], hash)
    ensures RemembersInOrder(e.objects[o], SavedLineage(e, o)) && NoRepeats(e.objects[o].committed)
  {
    RunKeepsHistory(Start(names), steps, e, hash);
    ReachableOk(names, steps, e, o, hash);
    ReachableOrder(names, steps, e, o, hash);
    CommitsDoNotRepeat(e.objects[o]);
  }

  lemma ReachableOk(names: set<string>, steps: seq<Step>, e: Engine, o: string, hash: Hash)
    requires RunsTo(Start(names), steps, e, hash) && (o in e.saved || o in e.objects)
    ensures o in names && o in e.objects && ObjectOk(e.objects[o])
  {
    RunKeepsStorageInv(Start(names), steps, e, hash);
    SameObjects(Start(names), steps, e, hash);
    assert Start(names).objects.Keys == names;
  }

  lemma ReachableOrder(names: set<string>, steps: seq<Step>, e: Engine, o: string, hash: Hash)
    requires RunsTo(Start(names), steps, e, hash) && o in names
    ensures o in e.objects && RemembersInOrder(e.objects[o], SavedLineage(e, o))
  {
    NothingKept([]);
    assert InMemoryLineage(Start(names).objects[o]) == [];
    RunKeepsOrder(Start(names), steps, e, o, hash);
  }

  /** Over any history of runs, crashes, lost saves and failed loads: the saved SchemaVersion never
      exceeds 1 plus the number of committed schema changes, and equals it exactly when no era of
      the committed syncs - no maximal run of them with one schema form - was forgotten whole.  The
      saved schema keeps the last full sync that is remembered, and the last one committed whenever
      that one is. */
  lemma SchemaHistoryOfEveryRun(names: set<string>, steps: seq<Step>, e: Engine, o: string, hash: Hash)
    requires CollisionFree(hash) && DistinctSteps(steps)
    requires RunsTo(Start(names), steps, e, hash)
    requires o in e.saved
    ensures o in e.objects
    ensures var t, committed := e.saved[o], e.objects[o].committed;
            && t.state.schemaVersion == 1 + SchemaChanges(t.lineage)
            && t.state.schemaVersion <= 1 + SchemaChanges(committed)
            && (t.state.schemaVersion == 1 + SchemaChanges(committed) <==> EveryEraKept(t.lineage, committed))
    ensures var t, committed := e.saved[o], e.objects[o].committed;
            && t.state.previousSchema.Some? && KeepsLastFull(t.lineage, t.state.previousSchema.value)
            && (KnowsLastFull(t.lineage, committed) ==> KeepsLastFull(committed, t.state.previousSchema.value))
  {
    ReachableObject(names, steps, e, o, hash);
    var t, committed := e.saved[o], e.objects[o].committed;
    RememberedSchema(t, hash);
    ChangesAreAllExactlyWhen(t.lineage, committed);
    if KnowsLastFull(t.lineage, committed) {
      LastFullCarriesOver(t.lineage, committed, t.state.previousSchema.value);
    }
  }

  lemma PlannedIncrementKeepsLastFull(w: ObjectWorld, hash: Hash)
    requires CollisionFree(hash) && ObjectHistory(w, hash)
    requires w.job.Committed? && w.job.plan.mode == Incremental && w.job.plan.schema.Some?
    ensures KeepsLastFull(LineageOf(w.mem), w.job.plan.schema.value) && LineageOf(w.mem)[0].mode == Full
  {
    var lineage := LineageOf(w.mem);
    PlanCarriesTheSchema(w.job.meta, StateOption(w.mem), w.job.allowed, hash);
    PlannedSyncExtendsHistory(w.job.meta, StateOption(w.mem), lineage, w.job.allowed, hash, w.job.staged, 0, 0, 0, 0);
    var longer := lineage + [RecordOf(w.job)];
    IncrementalsKeepTheFullSchema(longer);
    assert longer[..|longer| - 1] == lineage;
  }

  /** An incremental sync that reaches its commit uses a schema that keeps the last full sync that
      its state remembers, and the last one committed whenever that one is. */
  lemma IncrementalPlansKeepTheFullSchema(names: set<string>, steps: seq<Step>, e: Engine, o: string, hash: Hash)
    requires CollisionFree(hash) && DistinctSteps(steps)
    requires RunsTo(Start(names), steps, e, hash)
    requires o in e.objects && e.objects[o].job.Committed? && e.objects[o].job.plan.mode == Incremental
    ensures var w := e.objects[o];
            && w.job.plan.schema.Some? && KeepsLastFull(LineageOf(w.mem), w.job.plan.schema.value)
            && (KnowsLastFull(LineageOf(w.mem), w.committed) ==> KeepsLastFull(w.committed, w.job.plan.schema.value))
  {
    ReachableObject(names, steps, e, o, hash);
    var w := e.objects[o];
    PlannedIncrementKeepsLastFull(w, hash);
    if KnowsLastFull(LineageOf(w.mem), w.committed) {
      KeptWithoutTheLast(LineageOf(w.mem), RecordOf(w.job), w.committed);
      LastFullCarriesOver(LineageOf(w.mem), w.committed, w.job.plan.schema.value);
    }
  }

  // ---------------------------------------------------------------- runs of one object

  /** Every planning event is about this object description. */
  ghost predicate PlansOnly(events: seq<Event>, meta: ObjectMetadata) {
    forall i :: 0 <= i < |events| && events[i].PlanIt? ==> events[i].meta == meta
  }

  lemma PlansOnlyConcat(first: seq<Event>, second: seq<Event>, meta: ObjectMetadata)
    requires PlansOnly(first, meta) && PlansOnly(second, meta)
    ensures PlansOnly(first + second, meta)
  {
  }

  /** Planning and opening the table lead to extraction. */
  lemma Opening(w: ObjectWorld, meta: ObjectMetadata, hash: Hash) returns (events: seq<Event>, x: ObjectWorld)
    requires w.job.NotPlanned? && meta.schema.Some?
    ensures PlansOnly(events, meta)
    ensures After(w, events, hash) == Some(x)
    ensures x == w.(log := x.log, job := Extracting(meta, [], PlanOf(meta, StateOption(w.mem), [], hash), []))
  {
    var x1 := Planning(w, meta, hash);
    events, x := OneEvent(w, [], w, PlanIt(meta, []), hash);
    OpeningTheTable(x1, hash);
    events, x := OneEvent(w, events, x1, Initialize("", "", false, Acknowledged, 0), hash);
  }

  lemma Planning(w: ObjectWorld, meta: ObjectMetadata, hash: Hash) returns (x: ObjectWorld)
    requires w.job.NotPlanned? && meta.schema.Some?
    ensures CanHappen(w, PlanIt(meta, []), hash) && x == Happen(w, PlanIt(meta, []), hash)
    ensures x == w.(job := Ready(meta, [], PlanOf(meta, StateOption(w.mem), [], hash)))
  {
    x := Happen(w, PlanIt(meta, []), hash);
  }

  lemma OpeningTheTable(w: ObjectWorld, hash: Hash)
    requires w.job.Ready?
    ensures var open := Initialize("", "", false, Acknowledged, 0);
            && CanHappen(w, open, hash)
            && var x := Happen(w, open, hash);
               x == w.(log := x.log, job := Extracting(w.job.meta, w.job.allowed, w.job.plan, []))
  {
  }

  /** One file of one row is uploaded, and its commit is tried once. */
  lemma CommittingOneFile(w: ObjectWorld, filename: string, write: WriteOutcome, hash: Hash)
    returns (events: seq<Event>, add: Add, x: ObjectWorld)
    requires w.job.Extracting? && w.job.staged == [] && w.job.plan.schema.Some? && filename !in w.uploaded && !write.Lost?
    ensures PlansOnly(events, w.job.meta)
    ensures After(w, events, hash) == Some(x) && add == NewAdd(filename, 1, NumRecords(1), 0)
    ensures x == w.(uploaded := w.uploaded + {filename}, log := x.log, job := x.job,
                    committed := w.committed + [SyncRecord(w.job.plan.mode, w.job.plan.schema.value, [add])])
    ensures x.job == if write.Acknowledged?
                     then Job.Committed(w.job.meta, w.job.allowed, w.job.plan, [add], |x.log| - 1)
                     else Job.Committing(w.job.meta, w.job.allowed, w.job.plan, [add], true)
  {
    add := NewAdd(filename, 1, NumRecords(1), 0);
    events, x := [], w;
    events, x := OneEvent(w, events, x, UploadFile(filename, 1, 1, Acknowledged, 0), hash);
    assert x.job.staged == [add];
    events, x := OneEvent(w, events, x, WriteCommit(write, 0), hash);
  }

  lemma Adopting(w: ObjectWorld, events: seq<Event>, tried: ObjectWorld, hash: Hash) returns (longer: seq<Event>, x: ObjectWorld)
    requires After(w, events, hash) == Some(tried) && tried.job.Committed? && tried.job.plan.schema.Some?
    ensures longer == events + [UpdateState(0, 0)] && After(w, longer, hash) == Some(x)
    ensures var st := StateAfterSync(tried.job.plan, hash, tried.job.version, Rows(tried.job.staged), 0, 0);
            x == tried.(mem := Some(Tracked(st, LineageOf(tried.mem) + [RecordOf(tried.job)])), job := Finished)
  {
    longer, x := OneEvent(w, events, tried, UpdateState(0, 0), hash);
  }

  /** One sync of an object from its plan to its adopted commit, with one data file of one row. */
  lemma OneSync(w: ObjectWorld, meta: ObjectMetadata, filename: string, hash: Hash)
    returns (events: seq<Event>, add: Add, x: ObjectWorld)
    requires w.job.NotPlanned? && meta.schema.Some? && filename !in w.uploaded
    ensures After(w, events, hash) == Some(x)
    ensures var plan := PlanOf(meta, StateOption(w.mem), [], hash);
            var record := SyncRecord(plan.mode, meta.schema.value, [add]);
            && x.job.Finished? && x.uploaded == w.uploaded + {filename}
            && x.committed == w.committed + [record]
            && x.mem == Some(Tracked(StateAfterSync(plan, hash, |x.log| - 1, Rows([add]), 0, 0), LineageOf(w.mem) + [record]))
    ensures PlansOnly(events, meta)
  {
    var first, atWork := Opening(w, meta, hash);
    var second, add1, tried := CommittingOneFile(atWork, filename, Acknowledged, hash);
    add := add1;
    var both := Joined(w, first, atWork, second, tried, meta, hash);
    events, x := Adopting(w, both, tried, hash);
    PlansOnlyConcat(both, [UpdateState(0, 0)], meta);
  }

  lemma Joined(w: ObjectWorld, first: seq<Event>, x: ObjectWorld, second: seq<Event>, y: ObjectWorld, meta: ObjectMetadata, hash: Hash)
    returns (both: seq<Event>)
    requires After(w, first, hash) == Some(x) && After(x, second, hash) == Some(y)
    requires PlansOnly(first, meta) && PlansOnly(second, meta)
    ensures After(w, both, hash) == Some(y) && PlansOnly(both, meta)
  {
    both := first + second;
    AfterComposes(w, first, x, second, hash);
    PlansOnlyConcat(first, second, meta);
  }

  lemma OneEvent(w: ObjectWorld, events: seq<Event>, x: ObjectWorld, ev: Event, hash: Hash)
    returns (longer: seq<Event>, y: ObjectWorld)
    requires After(w, events, hash) == Some(x) && CanHappen(x, ev, hash)
    ensures longer == events + [ev] && y == Happen(x, ev, hash) && After(w, longer, hash) == Some(y)
  {
    longer, y := events + [ev], Happen(x, ev, hash);
    AfterSnoc(w, events, x, ev, hash);
  }

  /** What one synced run leaves behind: a commit of this plan, and the state to save. */
  ghost predicate SyncedOnce(loaded: Option<Tracked>, before: ObjectWorld, x: ObjectWorld, meta: ObjectMetadata, filename: string, hash: Hash)
    requires meta.schema.Some?
  {
    var plan := PlanOf(meta, StateOption(loaded), [], hash);
    && x.uploaded == before.uploaded + {filename}
    && exists files, version: int, rows: int ::
         && x.committed == before.committed + [SyncRecord(plan.mode, meta.schema.value, files)]
         && x.mem == Some(Tracked(StateAfterSync(plan, hash, version, rows, 0, 0),
                                  LineageOf(loaded) + [SyncRecord(plan.mode, meta.schema.value, files)]))
  }

  /** A whole run of an engine with one object: load, one sync, and a landed save or a crash. */
  lemma OneRun(e: Engine, o: string, loadFails: bool, meta: ObjectMetadata, filename: string, saves: bool, hash: Hash)
    returns (steps: seq<Step>, f: Engine)
    requires !e.running && e.objects.Keys == {o} && meta.schema.Some? && DistinctMeta(meta) && filename !in e.objects[o].uploaded
    ensures RunsTo(e, steps, f, hash) && DistinctSteps(steps)
    ensures !f.running && f.objects.Keys == {o}
    ensures SyncedOnce(Loaded(e, loadFails, o), e.objects[o], f.objects[o], meta, filename, hash)
    ensures f.saved == if saves then map[o := f.objects[o].mem.value] else e.saved
  {
    var s1 := Next(e, StartRun(loadFails), hash);
    var events, add, x := OneSync(s1.objects[o], meta, filename, hash);
    ObjectPathIsEnginePath(s1, o, events, x, hash);
    var s2 := s1.(objects := s1.objects[o := x]);
    steps, f := EndOfRun(s1, Lift(o, events), s2, o, saves, hash);
    steps := [StartRun(loadFails)] + steps;
    assert steps[1..] == Lift(o, events) + [if saves then Save(Acknowledged) else Crash];
    assert FirstThenRest(e, steps, f, hash);
  }

  lemma EndOfRun(s1: Engine, steps: seq<Step>, s2: Engine, o: string, saves: bool, hash: Hash) returns (longer: seq<Step>, f: Engine)
    requires RunsTo(s1, steps, s2, hash) && s2.running
    requires s2.objects.Keys == {o} && s2.objects[o].job.Finished? && s2.objects[o].mem.Some?
    ensures longer == steps + [if saves then Save(Acknowledged) else Crash] && RunsTo(s1, longer, f, hash)
    ensures !f.running && f.objects == s2.objects
    ensures f.saved == if saves then map[o := s2.objects[o].mem.value] else s2.saved
  {
    var last := if saves then Save(Acknowledged) else Crash;
    longer, f := steps + [last], Next(s2, last, hash);
    RunsToSnoc(s1, steps, s2, last, hash);
  }

  lemma {:induction false} RunsFollow(e: Engine, first: seq<Step>, mid: Engine, second: seq<Step>, f: Engine, hash: Hash)
    requires RunsTo(e, first, mid, hash) && RunsTo(mid, second, f, hash)
    ensures RunsTo(e, first + second, f, hash)
    decreases |first|
  {
    if first == [] {
      assert first + second == second;
    } else {
      assert FirstThenRest(e, first, mid, hash);
      RunsFollow(Next(e, first[0], hash), first[1..], mid, second, f, hash);
      assert (first + second)[1..] == first[1..] + second;
      assert FirstThenRest(e, first + second, f, hash);
    }
  }

  // ---------------------------------------------------------------- forgotten commits

  lemma AnotherRun(first: seq<Step>, e: Engine, o: string, loadFails: bool, meta: ObjectMetadata, filename: string, saves: bool, hash: Hash)
    returns (steps: seq<Step>, f: Engine)
    requires RunsTo(Start({o}), first, e, hash) && DistinctSteps(first)
    requires !e.running && e.objects.Keys == {o} && meta.schema.Some? && DistinctMeta(meta) && filename !in e.objects[o].uploaded
    ensures RunsTo(Start({o}), steps, f, hash) && DistinctSteps(steps)
    ensures !f.running && f.objects.Keys == {o}
    ensures SyncedOnce(Loaded(e, loadFails, o), e.objects[o], f.objects[o], meta, filename, hash)
    ensures f.saved == if saves then map[o := f.objects[o].mem.value] else e.saved
  {
    var more;
    more, f := OneRun(e, o, loadFails, meta, filename, saves, hash);
    RunsFollow(Start({o}), first, e, more, f, hash);
    steps := first + more;
  }

  lemma BreakingMeansChanged(a: Schema, b: Schema)
    requires DistinctNames(a.fields) && DistinctNames(b.fields) && !NonBreaking(a, b)
    ensures Canonical(a.fields) != Canonical(b.fields)
  {
    NonBreakingBothWays(a, b);
  }

  /** A run that commits and saves the first schema, and one that commits the second and crashes. */
  lemma ACrashAfterACommit(o: string, a: ObjectMetadata, b: ObjectMetadata, hash: Hash) returns (steps: seq<Step>, e: Engine)
    requires CollisionFree(hash) && a.schema.Some? && b.schema.Some? && DistinctMeta(a) && DistinctMeta(b)
    requires !NonBreaking(a.schema.value, b.schema.value)
    ensures RunsTo(Start({o}), steps, e, hash) && DistinctSteps(steps)
    ensures !e.running && e.objects.Keys == {o} && e.objects[o].uploaded == {"1", "2"}
    ensures var c := e.objects[o].committed;
            && |c| == 2 && c[0].schema == a.schema.value && c[1].schema == b.schema.value && c[1].mode == Full
    ensures o in e.saved
    ensures var st := e.saved[o].state;
            st.schemaVersion == 1 && st.schemaHash == hash(Canonical(a.schema.value.fields)) && st.previousSchema == a.schema
  {
    BreakingMeansChanged(a.schema.value, b.schema.value);
    var p0: seq<Step> := [];
    var p1, e1 := AnotherRun(p0, Start({o}), o, false, a, "1", true, hash);
    assert e1.objects[o].uploaded == {"1"};
    steps, e := AnotherRun(p1, e1, o, false, b, "2", false, hash);
    assert e.objects[o].uploaded == {"1", "2"};
  }

  lemma SameSchemaGoesOn(meta: ObjectMetadata, st: ObjectState, hash: Hash)
    requires meta.schema.Some? && st.schemaHash == hash(Canonical(meta.schema.value.fields)) && st.schemaVersion >= 1
    ensures var plan := PlanOf(meta, Some(st), [], hash);
            plan.mode == Incremental && plan.newVersion == st.schemaVersion && plan.schema == meta.schema
  {
  }

  lemma ThreeSchemas(c: seq<SyncRecord>)
    requires |c| == 3
    ensures SchemaChanges(c) == (if Canonical(c[1].schema.fields) == Canonical(c[0].schema.fields) then 0 else 1)
                              + (if Canonical(c[2].schema.fields) == Canonical(c[1].schema.fields) then 0 else 1)
  {
    assert SchemaChanges(c[..2][..1]) == 0;
    assert c[..2][1] == c[1] && c[..2][0] == c[0];
  }

  /** For any two schemas that break each other: a run commits the first and saves; the next commits
      the second and crashes before its save; the third finds the first again, plans an increment,
      commits and saves.  The saved version is 1 after two committed changes, and the increment
      breaks the schema of the last committed full sync. */
  lemma ACrashForgetsACommit(o: string, a: ObjectMetadata, b: ObjectMetadata, hash: Hash)
    requires CollisionFree(hash) && a.schema.Some? && b.schema.Some? && DistinctMeta(a) && DistinctMeta(b)
    requires !NonBreaking(a.schema.value, b.schema.value) && !NonBreaking(b.schema.value, a.schema.value)
    ensures exists steps, e ::
      && RunsTo(Start({o}), steps, e, hash) && DistinctSteps(steps) && o in e.saved && o in e.objects
      && var committed := e.objects[o].committed;
      && e.saved[o].state.schemaVersion == 1 && SchemaChanges(committed) == 2
      && |committed| == 3 && committed[1].mode == Full && committed[2].mode == Incremental
      && !NonBreaking(committed[1].schema, committed[2].schema)
  {
    var steps, e := AnIncrementAfterTheCrash(o, a, b, hash);
    var c := e.objects[o].committed;
    BreakingMeansChanged(a.schema.value, b.schema.value);
    BreakingMeansChanged(b.schema.value, a.schema.value);
    ThreeSchemas(c);
  }

  lemma AnIncrementAfterTheCrash(o: string, a: ObjectMetadata, b: ObjectMetadata, hash: Hash) returns (steps: seq<Step>, e: Engine)
    requires CollisionFree(hash) && a.schema.Some? && b.schema.Some? && DistinctMeta(a) && DistinctMeta(b)
    requires !NonBreaking(a.schema.value, b.schema.value)
    ensures RunsTo(Start({o}), steps, e, hash) && DistinctSteps(steps)
    ensures o in e.objects && o in e.saved && e.saved[o].state.schemaVersion == 1
    ensures var c := e.objects[o].committed;
            && |c| == 3 && c[0].schema == a.schema.value && c[1].schema == b.schema.value && c[2].schema == a.schema.value
            && c[1].mode == Full && c[2].mode == Incremental
  {
    var p2, e2 := ACrashAfterACommit(o, a, b, hash);
    SameSchemaGoesOn(a, e2.saved[o].state, hash);
    steps, e := AnotherRun(p2, e2, o, false, a, "3", true, hash);
    var c := e.objects[o].committed;
    assert c[..2] == e2.objects[o].committed;
    assert c[0] == c[..2][0] && c[1] == c[..2][1];
  }

  /** And when the state of the first run cannot be loaded, the second run saves version 1 again
      although the schema changed. */
  lemma AFailedLoadRestartsTheVersion(o: string, a: ObjectMetadata, b: ObjectMetadata, hash: Hash)
    requires CollisionFree(hash) && a.schema.Some? && b.schema.Some? && DistinctMeta(a) && DistinctMeta(b)
    requires Canonical(a.schema.value.fields) != Canonical(b.schema.value.fields)
    ensures exists steps, e ::
      && RunsTo(Start({o}), steps, e, hash) && DistinctSteps(steps) && o in e.saved && o in e.objects
      && e.saved[o].state.schemaVersion == 1 && SchemaChanges(e.objects[o].committed) == 1
  {
    var steps, e := ARunAfterAFailedLoad(o, a, b, hash);
    var c := e.objects[o].committed;
    assert SchemaChanges(c[..1]) == 0;
  }

  lemma FirstPlan(meta: ObjectMetadata, hash: Hash)
    requires meta.schema.Some?
    ensures PlanOf(meta, None, [], hash).newVersion == 1
  {
  }

  lemma ARunAfterAFailedLoad(o: string, a: ObjectMetadata, b: ObjectMetadata, hash: Hash) returns (steps: seq<Step>, e: Engine)
    requires CollisionFree(hash) && a.schema.Some? && b.schema.Some? && DistinctMeta(a) && DistinctMeta(b)
    ensures RunsTo(Start({o}), steps, e, hash) && DistinctSteps(steps)
    ensures o in e.objects && o in e.saved && e.saved[o].state.schemaVersion == 1
    ensures var c := e.objects[o].committed; |c| == 2 && c[0].schema == a.schema.value && c[1].schema == b.schema.value
  {
    var p0: seq<Step> := [];
    var p1, e1 := AnotherRun(p0, Start({o}), o, false, a, "1", true, hash);
    assert e1.objects[o].uploaded == {"1"};
    FirstPlan(b, hash);
    steps, e := AnotherRun(p1, e1, o, true, b, "2", true, hash);
  }

  // ---------------------------------------------------------------- what retried syncs duplicate

  lemma {:induction false} PathKeepsObjectOk(w: ObjectWorld, events: seq<Event>, x: ObjectWorld, hash: Hash)
    requires ObjectOk(w) && After(w, events, hash) == Some(x)
    ensures ObjectOk(x)
    decreases |events|
  {
    if events != [] {
      var front, ev := events[..|events| - 1], events[|events| - 1];
      var y := After(w, front, hash).value;
      PathKeepsObjectOk(w, front, y, hash);
      EventKeepsObjectOk(y, ev, hash);
    }
  }

  lemma {:induction false} FilesOfSomeSync(committed: seq<SyncRecord>, f: Add)
    ensures f in AllFiles(committed) <==> exists k :: 0 <= k < |committed| && f in committed[k].files
  {
    if committed != [] {
      var front, last := committed[..|committed| - 1], committed[|committed| - 1];
      FilesOfSomeSync(front, f);
      if k :| 0 <= k < |committed| && f in committed[k].files {
        assert k < |front| ==> f in front[k].files;
      }
      if k :| 0 <= k < |front| && f in front[k].files {
        assert f in committed[k].files;
      }
      if f in last.files {
        assert f in committed[|committed| - 1].files;
      }
    }
  }

  /** A landed commit that was reported as failed, and whose sync is then run again as a whole, adds
      files twice: both stay active, though the state counts only the second. */
  lemma ARetriedSyncKeepsBothFiles(w: ObjectWorld, meta: ObjectMetadata, first: string, second: string, hash: Hash)
    requires ObjectOk(w) && w.job.NotPlanned? && meta.schema.Some?
    requires first !in w.uploaded && second !in w.uploaded && first != second
    ensures exists events, x ::
      && After(w, events, hash) == Some(x) && x.job.Finished?
      && |x.committed| == |w.committed| + 2 && x.mem.Some? && x.mem.value.state.totalRecords == 1
      && first in StateOf(x.log).files && second in StateOf(x.log).files
  {
    var p1, add1, x1 := LandedAndAbandoned(w, meta, first, hash);
    var p2, add2, x2 := TriedAgain(x1, second, hash);
    AfterComposes(w, p1, x1, p2, hash);
    assert x2.committed[|x2.committed| - 2].files == [add1];
    BothActive(w, p1 + p2, x2, add1, add2, hash);
  }

  lemma TriedAgain(w: ObjectWorld, second: string, hash: Hash) returns (events: seq<Event>, add: Add, x: ObjectWorld)
    requires w.job.Ready? && w.job.plan.schema.Some? && second !in w.uploaded
    ensures After(w, events, hash) == Some(x) && x.job.Finished? && add.path == second
    ensures x.mem.Some? && x.mem.value.state.totalRecords == 1
    ensures |x.committed| == |w.committed| + 1 && x.committed[..|w.committed|] == w.committed && x.committed[|w.committed|].files == [add]
  {
    var p1, x1 := OneEvent(w, [], w, Initialize("", "", false, Acknowledged, 0), hash);
    var q2, add1, x2 := CommittingOneFile(x1, second, Acknowledged, hash);
    add := add1;
    AfterComposes(w, p1, x1, q2, hash);
    events, x := Adopting(w, p1 + q2, x2, hash);
    assert Rows([add]) == Rows([add][..0]) + 1;
  }

  lemma LandedAndAbandoned(w: ObjectWorld, meta: ObjectMetadata, first: string, hash: Hash)
    returns (events: seq<Event>, add: Add, x: ObjectWorld)
    requires w.job.NotPlanned? && meta.schema.Some? && first !in w.uploaded
    ensures After(w, events, hash) == Some(x) && add.path == first
    ensures x.uploaded == w.uploaded + {first} && x.mem == w.mem
    ensures |x.committed| == |w.committed| + 1 && x.committed[|w.committed|].files == [add]
    ensures x.job.Ready? && x.job.plan.schema.Some?
  {
    var p1, x1 := Opening(w, meta, hash);
    var q2, add1, x2 := CommittingOneFile(x1, first, LandedUnacknowledged, hash);
    AfterComposes(w, p1, x1, q2, hash);
    add := add1;
    events, x := OneEvent(w, p1 + q2, x2, Abandon, hash);
  }

  lemma BothActive(w: ObjectWorld, events: seq<Event>, x: ObjectWorld, f: Add, g: Add, hash: Hash)
    requires ObjectOk(w) && After(w, events, hash) == Some(x)
    requires |x.committed| >= 2 && f in x.committed[|x.committed| - 2].files && g in x.committed[|x.committed| - 1].files
    ensures f.path in StateOf(x.log).files && g.path in StateOf(x.log).files
  {
    PathKeepsObjectOk(w, events, x, hash);
    FilesOfSomeSync(x.committed, f);
    FilesOfSomeSync(x.committed, g);
    SnapshotIsAllCommittedFiles(x);
  }

  lemma {:induction false} SyncsShareNoPath(committed: seq<SyncRecord>, k: nat, l: nat, f: Add, g: Add)
    requires DistinctPaths(AllFiles(committed)) && k < l < |committed|
    requires f in committed[k].files && g in committed[l].files
    ensures f.path != g.path
    decreases |committed|
  {
    var front, last := committed[..|committed| - 1], committed[|committed| - 1];
    var earlier := AllFiles(front);
    assert forall i :: 0 <= i < |earlier| ==> AllFiles(committed)[i] == earlier[i];
    if l < |front| {
      SyncsShareNoPath(front, k, l, f, g);
    } else {
      assert f in front[k].files;
      FilesOfSomeSync(front, f);
      var i :| 0 <= i < |earlier| && earlier[i] == f;
      var j :| 0 <= j < |last.files| && last.files[j] == g;
      assert AllFiles(committed)[|earlier| + j] == g;
    }
  }

  /** Some row is in two active files. */
  ghost predicate HasDuplicates<Row(!new)>(files: map<string, Add>, content: string -> set<Row>) {
    exists row, p, q :: TwoFilesHold(files, content, row, p, q)
  }

  ghost predicate TwoFilesHold<Row(!new)>(files: map<string, Add>, content: string -> set<Row>, row: Row, p: string, q: string) {
    p in files && q in files && p != q && row in content(p) && row in content(q)
  }

  ghost predicate Carries<Row(!new)>(sync: SyncRecord, content: string -> set<Row>, row: Row) {
    exists f :: f in sync.files && row in content(f.path)
  }

  /** One extraction yields no row in two of its files. */
  ghost predicate ExtractedOnce<Row(!new)>(sync: SyncRecord, content: string -> set<Row>) {
    forall f, g, row :: f in sync.files && g in sync.files && row in content(f.path) && row in content(g.path) ==> f.path == g.path
  }

  lemma NotTwice<Row(!new)>(sync: SyncRecord, content: string -> set<Row>, f: Add, g: Add, row: Row)
    requires ExtractedOnce(sync, content) && f in sync.files && f.path != g.path
    requires row in content(f.path) && row in content(g.path)
    ensures g !in sync.files
  {
  }

  /** Whatever the files contain, the table holds a row twice exactly when two syncs whose commits
      landed both carry it. */
  lemma RowsAreDuplicatedExactlyWhen<Row(!new)>(w: ObjectWorld, content: string -> set<Row>)
    requires LogOk(w)
    requires forall k :: 0 <= k < |w.committed| ==> ExtractedOnce(w.committed[k], content)
    ensures HasDuplicates(StateOf(w.log).files, content) <==>
            exists row, k, l :: 0 <= k < l < |w.committed| && Carries(w.committed[k], content, row) && Carries(w.committed[l], content, row)
  {
    if row, p, q :| TwoFilesHold(StateOf(w.log).files, content, row, p, q) {
      DuplicatesComeFromTwoSyncs(w, content, row, p, q);
    }
    if row, k, l :| 0 <= k < l < |w.committed| && Carries(w.committed[k], content, row) && Carries(w.committed[l], content, row) {
      TwoSyncsDuplicate(w, content, row, k, l);
    }
  }

  lemma DuplicatesComeFromTwoSyncs<Row(!new)>(w: ObjectWorld, content: string -> set<Row>, row: Row, p: string, q: string)
    requires LogOk(w) && TwoFilesHold(StateOf(w.log).files, content, row, p, q)
    requires forall k :: 0 <= k < |w.committed| ==> ExtractedOnce(w.committed[k], content)
    ensures exists k, l :: 0 <= k < l < |w.committed| && Carries(w.committed[k], content, row) && Carries(w.committed[l], content, row)
  {
    var files, c := StateOf(w.log).files, w.committed;
    var k, l := SyncOf(w, p), SyncOf(w, q);
    NotTwice(c[k], content, files[p], files[q], row);
    assert k != l && Carries(c[k], content, row) && Carries(c[l], content, row);
    if l < k {
      assert Carries(c[l], content, row) && Carries(c[k], content, row);
    }
  }

  lemma TwoSyncsDuplicate<Row(!new)>(w: ObjectWorld, content: string -> set<Row>, row: Row, k: nat, l: nat)
    requires LogOk(w) && k < l < |w.committed|
    requires Carries(w.committed[k], content, row) && Carries(w.committed[l], content, row)
    ensures HasDuplicates(StateOf(w.log).files, content)
  {
    var c := w.committed;
    var f :| f in c[k].files && row in content(f.path);
    var g :| g in c[l].files && row in content(g.path);
    SnapshotIsAllCommittedFiles(w);
    FilesOfSomeSync(c, f);
    FilesOfSomeSync(c, g);
    SyncsShareNoPath(c, k, l, f, g);
    assert TwoFilesHold(StateOf(w.log).files, content, row, f.path, g.path);
  }

  /** The landed sync an active file comes from. */
  ghost function SyncOf(w: ObjectWorld, path: string): (k: nat)
    requires LogOk(w) && path in StateOf(w.log).files
    ensures k < |w.committed| && StateOf(w.log).files[path] in w.committed[k].files && StateOf(w.log).files[path].path == path
  {
    var f := StateOf(w.log).files[path];
    assert f in AllFiles(w.committed) && f.path == path by {
      SnapshotIsAllCommittedFiles(w);
      ReplayWellKeyed(EMPTY, Flatten(w.log));
      ListedUnderItsPath(AllFiles(w.committed), StateOf(w.log).files, path);
    }
    assert exists k: nat :: k < |w.committed| && f in w.committed[k].files by {
      FilesOfSomeSync(w.committed, f);
    }
    var k: nat :| k < |w.committed| && f in w.committed[k].files;
    k
  }

  lemma ListedUnderItsPath(order: seq<Add>, files: map<string, Add>, path: string)
    requires Lists(order, files) && path in files
    requires forall p :: p in files ==> files[p].path == p
    ensures files[path] in order && files[path].path == path
  {
  }

  function RowsOfSyncs(committed: seq<SyncRecord>): int {
    if committed == [] then 0 else RowsOfSyncs(committed[..|committed| - 1]) + Rows(committed[|committed| - 1].files)
  }

  lemma {:induction false} RowsConcat(a: seq<Add>, b: seq<Add>)
    ensures Rows(a + b) == Rows(a) + Rows(b)
  {
    if b == [] {
      assert a + b == a;
    } else {
      assert (a + b)[..|a + b| - 1] == a + b[..|b| - 1];
      RowsConcat(a, b[..|b| - 1]);
    }
  }

  lemma {:induction false} AllFilesHaveAllRows(committed: seq<SyncRecord>)
    ensures Rows(AllFiles(committed)) == RowsOfSyncs(committed)
  {
    if committed != [] {
      AllFilesHaveAllRows(committed[..|committed| - 1]);
      RowsConcat(AllFiles(committed[..|committed| - 1]), committed[|committed| - 1].files);
    }
  }

  lemma RowsOfThree(front: seq<Add>, middle: seq<Add>, back: seq<Add>)
    ensures Rows(front + middle + back) == Rows(front + back) + Rows(middle)
  {
    RowsConcat(front + middle, back);
    RowsConcat(front, middle);
    RowsConcat(front, back);
  }

  lemma AroundEntry(order: seq<Add>, i: nat)
    requires i < |order|
    ensures order == order[..i] + [order[i]] + order[i + 1..]
  {
  }

  lemma RowsWithout(order: seq<Add>, i: nat)
    requires i < |order|
    ensures Rows(order) == Rows(order[..i] + order[i + 1..]) + Rows([order[i]])
  {
    AroundEntry(order, i);
    RowsOfThree(order[..i], [order[i]], order[i + 1..]);
  }

  predicate ByPath(files: map<string, Add>) {
    forall path :: path in files ==> files[path].path == path
  }

  /** Entry `k` of a listing from which entry `i` was taken out. */
  lemma EntryWithout(order: seq<Add>, i: nat, k: nat)
    requires i < |order| && k < |order| - 1
    ensures (order[..i] + order[i + 1..])[k] == order[if k < i then k else k + 1]
  {
  }

  lemma ListsWithout(order: seq<Add>, files: map<string, Add>, i: nat)
    requires Lists(order, files) && ByPath(files) && i < |order|
    ensures Lists(order[..i] + order[i + 1..], files - {order[i].path})
  {
    var rest, fewer := order[..i] + order[i + 1..], files - {order[i].path};
    forall k | 0 <= k < |rest| ensures rest[k].path in fewer && fewer[rest[k].path] == rest[k] {
      EntryWithout(order, i, k);
    }
    forall j, k | 0 <= j < k < |rest| ensures rest[j].path != rest[k].path {
      EntryWithout(order, i, j);
      EntryWithout(order, i, k);
    }
    forall path | path in fewer ensures fewer[path] in rest {
      var k :| 0 <= k < |order| && order[k] == files[path];
      assert k != i;
      EntryWithout(order, i, if k < i then k else k - 1);
    }
  }

  lemma SomethingListed(a: seq<Add>, b: seq<Add>, files: map<string, Add>)
    requires Lists(a, files) && Lists(b, files)
    ensures b != [] ==> a != []
  {
    if b != [] {
      assert files[b[0].path] in a;
    }
  }

  /** Any two listings of the same files count the same rows. */
  lemma {:induction false} ListingsCountTheSame(a: seq<Add>, b: seq<Add>, files: map<string, Add>)
    requires Lists(a, files) && Lists(b, files) && ByPath(files)
    ensures Rows(a) == Rows(b)
    decreases |a|
  {
    SomethingListed(a, b, files);
    if a != [] {
      var last := |a| - 1;
      assert a[last].path in files && files[a[last].path] == a[last];
      var i :| 0 <= i < |b| && b[i] == a[last];
      ListsWithout(a, files, last);
      ListsWithout(b, files, i);
      ListingsCountTheSame(a[..last] + a[last + 1..], b[..i] + b[i + 1..], files - {a[last].path});
      RowsWithout(a, last);
      RowsWithout(b, i);
    }
  }

  /** In whatever order the latest snapshot is read, its rows are those of all landed syncs together. */
  lemma SnapshotRowsAreAllCommittedRows(w: ObjectWorld, order: seq<Add>)
    requires LogOk(w) && Lists(order, StateOf(w.log).files)
    ensures Rows(order) == RowsOfSyncs(w.committed)
  {
    SnapshotIsAllCommittedFiles(w);
    ReplayWellKeyed(EMPTY, Flatten(w.log));
    ListingsCountTheSame(order, AllFiles(w.committed), StateOf(w.log).files);
    AllFilesHaveAllRows(w.committed);
  }
}

/** The full / incremental / skip decision (internal/sync/planner.go) and what it guarantees over
    a history of committed syncs. */
module Planners {
  import opened Wrappers
  import opened Actions
  import opened Schemas

  datatype SyncMode = Full | Incremental | Skip

  datatype ObjectMetadata = ObjectMetadata(name: string, watermarkField: string, schema: Option<Schema>)

  datatype ObjectState = ObjectState(
    lastSyncTime: int, watermarkField: string, watermarkValue: int,
    schemaHash: string, schemaVersion: int, previousSchema: Option<Schema>,
    deltaVersion: int, totalRecords: int, lastSyncRecords: int, syncType: SyncMode)

  datatype ObjectPlan = ObjectPlan(
    objectName: string, mode: SyncMode, reason: string, watermarkField: string,
    schema: Option<Schema>, schemaChanged: bool, newVersion: int)

  type Hash = seq<HashField> -> string

  /** `Plan` as a function of the object's metadata and its stored state. */
  function PlanOf(meta: ObjectMetadata, state: Option<ObjectState>, allowed: seq<string>, hash: Hash): ObjectPlan {
    if allowed != [] && meta.name !in allowed then
      ObjectPlan(meta.name, Skip, "not in allowed objects list", "", None, false, 0)
    else if state.None? then
      ObjectPlan(meta.name, Full, "no prior sync state", meta.watermarkField, meta.schema, false, 1)
    else
      var st := state.value;
      var changed := meta.schema.Some? && st.schemaHash != "" && hash(Canonical(meta.schema.value.fields)) != st.schemaHash;
      var bumped := if changed then st.schemaVersion + 1 else 0;
      if changed && st.previousSchema.None? then
        ObjectPlan(meta.name, Full, "schema changed (no prior schema for diffing)", meta.watermarkField, meta.schema, true, bumped)
      else if changed && !NonBreaking(st.previousSchema.value, meta.schema.value) then
        ObjectPlan(meta.name, Full, "breaking schema change detected", meta.watermarkField, meta.schema, true, bumped)
      else
        ObjectPlan(meta.name, Incremental, "incremental from watermark", meta.watermarkField, meta.schema, changed,
                   if bumped == 0 then st.schemaVersion else bumped)
  }

  /** Whether the diff of the two schemas is breaking. */
  method Breaks(old_: Schema, new_: Schema) returns (breaking: bool)
    ensures breaking <==> !NonBreaking(old_, new_)
  {
    var diff := Diff(old_, new_);
    breaking := diff.IsBreaking();
  }

  method Contains(slice: seq<string>, item: string) returns (found: bool)
    ensures found <==> item in slice
  {
    for i := 0 to |slice|
      invariant item !in slice[..i]
    {
      if slice[i] == item {
        return true;
      }
    }
    found := false;
  }

  method Plan(meta: ObjectMetadata, state: Option<ObjectState>, allowed: seq<string>, hash: Hash) returns (plan: ObjectPlan)
    ensures plan == PlanOf(meta, state, allowed, hash)
    // Skipped are exactly the objects that an allow list leaves out; the others keep their description.
    ensures plan.mode == Skip <==> allowed != [] && meta.name !in allowed
    ensures plan.objectName == meta.name
    ensures plan.mode != Skip ==> plan.watermarkField == meta.watermarkField && plan.schema == meta.schema
    ensures plan.mode == Skip ==> plan == ObjectPlan(meta.name, Skip, plan.reason, "", None, false, 0)
    // The first sync is full and makes version 1.
    ensures plan.mode != Skip && state.None? ==> plan.mode == Full && plan.newVersion == 1 && !plan.schemaChanged
    // Afterwards a change of the hash, and nothing else, makes the next version.
    ensures plan.mode != Skip && state.Some? ==>
              (plan.schemaChanged <==>
                 meta.schema.Some? && state.value.schemaHash != "" && hash(Canonical(meta.schema.value.fields)) != state.value.schemaHash)
    ensures plan.mode != Skip && state.Some? && !plan.schemaChanged ==>
              plan.mode == Incremental && plan.newVersion == state.value.schemaVersion
    ensures plan.schemaChanged && state.value.schemaVersion != -1 ==> plan.newVersion == state.value.schemaVersion + 1
    // It needs a full sync unless the previous schema is known and nothing it had is gone.
    ensures plan.schemaChanged ==>
              (plan.mode == Full <==>
                 state.value.previousSchema.None?
                 || !KeepsFields(FieldMap(state.value.previousSchema.value.fields), FieldMap(meta.schema.value.fields)))
    // Which rule decided.
    ensures plan.mode == Skip ==> plan.reason == "not in allowed objects list"
    ensures plan.mode == Incremental ==> plan.reason == "incremental from watermark"
    ensures plan.mode == Full ==>
              plan.reason == if state.None? then "no prior sync state"
                             else if state.value.previousSchema.None? then "schema changed (no prior schema for diffing)"
                             else "breaking schema change detected"
  {
    if |allowed| > 0 {
      var found := Contains(allowed, meta.name);
      if !found {
        return ObjectPlan(meta.name, Skip, "not in allowed objects list", "", None, false, 0);
      }
    }
    plan := ObjectPlan(meta.name, Full, "", meta.watermarkField, meta.schema, false, 0);
    if state.None? {
      return plan.(reason := "no prior sync state", newVersion := 1);
    }
    var st := state.value;
    if meta.schema.Some? && st.schemaHash != "" {
      var newHash := ComputeHash(meta.schema.value.fields, hash);
      if newHash != st.schemaHash {
        plan := plan.(schemaChanged := true, newVersion := st.schemaVersion + 1);
        if st.previousSchema.Some? {
          var breaking := Breaks(st.previousSchema.value, meta.schema.value);
          if breaking {
            return plan.(reason := "breaking schema change detected");
          }
        } else {
          return plan.(reason := "schema changed (no prior schema for diffing)");
        }
      }
    }
    plan := plan.(mode := Incremental, reason := "incremental from watermark");
    if plan.newVersion == 0 {
      plan := plan.(newVersion := st.schemaVersion);
    }
  }

  /** Only an allow list that leaves the object out makes a plan to skip it. */
  lemma SkippedExactlyWhen(meta: ObjectMetadata, state: Option<ObjectState>, allowed: seq<string>, hash: Hash)
    ensures PlanOf(meta, state, allowed, hash).mode == Skip <==> allowed != [] && meta.name !in allowed
    ensures PlanOf(meta, state, allowed, hash).objectName == meta.name
  {
  }

  /** The state `syncObject` stores after its commit. */
  function StateAfterSync(plan: ObjectPlan, hash: Hash, deltaVersion: int, records: int, syncTime: int, watermark: int): ObjectState {
    var st := ObjectState(syncTime, plan.watermarkField, watermark, "", 0, None, deltaVersion, records, records, plan.mode);
    if plan.schema.None? then st
    else st.(schemaHash := hash(Canonical(plan.schema.value.fields)), schemaVersion := plan.newVersion, previousSchema := plan.schema)
  }

  // ---------------------------------------------------------------- histories

  /** One committed sync: how it was planned, and the data files its commit added. */
  datatype SyncRecord = SyncRecord(mode: SyncMode, schema: Schema, files: seq<Add>)

  /** How often the schema changed from one committed sync to the next. */
  function SchemaChanges(lineage: seq<SyncRecord>): nat {
    if |lineage| < 2 then 0
    else
      SchemaChanges(lineage[..|lineage| - 1]) +
      (if Canonical(lineage[|lineage| - 1].schema.fields) == Canonical(lineage[|lineage| - 2].schema.fields) then 0 else 1)
  }

  /** The hash never collides and is never the empty string. */
  ghost predicate CollisionFree(hash: Hash) {
    && (forall a, b :: hash(a) == hash(b) ==> a == b)
    && (forall a :: hash(a) != "")
  }

  /** An incremental sync does not break the schema of the sync before it. */
  predicate Follows(previous: SyncRecord, next: SyncRecord) {
    next.mode == Incremental ==> NonBreaking(previous.schema, next.schema)
  }

  ghost predicate GoodLineage(lineage: seq<SyncRecord>) {
    && lineage != []
    && lineage[0].mode == Full
    && (forall i :: 0 <= i < |lineage| ==> lineage[i].mode != Skip && DistinctNames(lineage[i].schema.fields))
    && (forall i :: 0 < i < |lineage| ==> Follows(lineage[i - 1], lineage[i]))
  }

  /** The stored state is the one that this history of committed syncs leads to. */
  ghost predicate Describes(st: ObjectState, lineage: seq<SyncRecord>, hash: Hash) {
    && GoodLineage(lineage)
    && var last := lineage[|lineage| - 1];
    && st.schemaHash == hash(Canonical(last.schema.fields))
    && st.previousSchema == Some(last.schema)
    && st.schemaVersion == 1 + SchemaChanges(lineage)
    && st.syncType == last.mode
  }

  /** A state is either absent or described by its history. */
  ghost predicate DescribesOption(st: Option<ObjectState>, lineage: seq<SyncRecord>, hash: Hash) {
    if st.None? then lineage == [] else Describes(st.value, lineage, hash)
  }

  lemma HashTellsFormsApart(hash: Hash, a: seq<HashField>, b: seq<HashField>)
    requires CollisionFree(hash)
    ensures hash(a) == hash(b) <==> a == b
    ensures hash(a) != ""
  {
  }

  lemma AnExtensionIsGood(lineage: seq<SyncRecord>, next: SyncRecord)
    requires GoodLineage(lineage) && next.mode != Skip && DistinctNames(next.schema.fields)
    requires Follows(lineage[|lineage| - 1], next)
    ensures GoodLineage(lineage + [next])
  {
    var longer := lineage + [next];
    forall i | 0 < i < |longer| ensures Follows(longer[i - 1], longer[i]) {
      if i < |lineage| {
        assert longer[i] == lineage[i] && longer[i - 1] == lineage[i - 1];
      }
    }
  }

  lemma AnExtensionCounts(lineage: seq<SyncRecord>, next: SyncRecord)
    requires lineage != []
    ensures SchemaChanges(lineage + [next]) == SchemaChanges(lineage) +
              (if Canonical(next.schema.fields) == Canonical(lineage[|lineage| - 1].schema.fields) then 0 else 1)
  {
    assert (lineage + [next])[..|lineage|] == lineage;
  }

  /** What a plan against a described state decides: the change flag is exact, the version moves
      with it, and only a schema that keeps every field goes incremental. */
  lemma PlanDecidesRight(meta: ObjectMetadata, st: ObjectState, last: Schema, allowed: seq<string>, hash: Hash)
    requires allowed == [] || meta.name in allowed
    requires meta.schema.Some? && DistinctNames(meta.schema.value.fields) && DistinctNames(last.fields)
    requires st.previousSchema == Some(last) && st.schemaHash == hash(Canonical(last.fields)) && st.schemaVersion >= 1
    requires hash(Canonical(last.fields)) != ""
    requires hash(Canonical(meta.schema.value.fields)) == hash(Canonical(last.fields)) ==>
               Canonical(meta.schema.value.fields) == Canonical(last.fields)
    ensures var plan := PlanOf(meta, Some(st), allowed, hash);
            && plan.newVersion == st.schemaVersion +
                 (if Canonical(meta.schema.value.fields) == Canonical(last.fields) then 0 else 1)
            && (plan.mode == Incremental <==> NonBreaking(last, meta.schema.value))
            && (plan.mode == Full <==> !NonBreaking(last, meta.schema.value))
  {
    NonBreakingBothWays(last, meta.schema.value);
  }

  /** One more planned and committed sync extends the history: the stored schema version is again
      1 plus the number of changes, and an incremental sync never loses a field. */
  lemma PlannedSyncExtendsHistory(meta: ObjectMetadata, st: Option<ObjectState>, lineage: seq<SyncRecord>, allowed: seq<string>,
                                  hash: Hash, files: seq<Add>, deltaVersion: int, records: int, syncTime: int, watermark: int)
    requires CollisionFree(hash) && DescribesOption(st, lineage, hash)
    requires meta.schema.Some? && DistinctNames(meta.schema.value.fields)
    requires PlanOf(meta, st, allowed, hash).mode != Skip
    ensures var plan := PlanOf(meta, st, allowed, hash);
            Describes(StateAfterSync(plan, hash, deltaVersion, records, syncTime, watermark),
                      lineage + [SyncRecord(plan.mode, meta.schema.value, files)], hash)
  {
    var next := SyncRecord(PlanOf(meta, st, allowed, hash).mode, meta.schema.value, files);
    if st.Some? {
      var last := lineage[|lineage| - 1].schema;
      HashTellsFormsApart(hash, Canonical(meta.schema.value.fields), Canonical(last.fields));
      HashTellsFormsApart(hash, Canonical(last.fields), Canonical(last.fields));
      PlanDecidesRight(meta, st.value, last, allowed, hash);
      AnExtensionIsGood(lineage, next);
      AnExtensionCounts(lineage, next);
    } else {
      assert lineage + [next] == [next];
    }
  }

  /** Position of the last full sync. */
  function LastFull(lineage: seq<SyncRecord>): nat
    requires lineage != []
    ensures LastFull(lineage) < |lineage|
  {
    if |lineage| == 1 || lineage[|lineage| - 1].mode == Full then |lineage| - 1 else LastFull(lineage[..|lineage| - 1])
  }

  /** Every sync after a full sync, up to the next one, uses a schema that keeps every field of
      that full sync with its type. */
  lemma {:induction false} IncrementalsKeepTheFullSchema(lineage: seq<SyncRecord>)
    requires GoodLineage(lineage)
    ensures lineage[LastFull(lineage)].mode == Full
    ensures NonBreaking(lineage[LastFull(lineage)].schema, lineage[|lineage| - 1].schema)
  {
    if |lineage| > 1 && lineage[|lineage| - 1].mode != Full {
      var front := lineage[..|lineage| - 1];
      FrontIsGood(lineage);
      IncrementalsKeepTheFullSchema(front);
      NonBreakingComposes(front[LastFull(front)].schema, front[|front| - 1].schema, lineage[|lineage| - 1].schema);
    }
  }

  lemma FrontIsGood(lineage: seq<SyncRecord>)
    requires GoodLineage(lineage) && |lineage| > 1
    ensures GoodLineage(lineage[..|lineage| - 1])
    ensures lineage[|lineage| - 1].mode != Full ==>
              lineage[|lineage| - 1].mode == Incremental &&
              NonBreaking(lineage[|lineage| - 2].schema, lineage[|lineage| - 1].schema)
  {
    var front := lineage[..|lineage| - 1];
    forall i | 0 < i < |front| ensures Follows(front[i - 1], front[i]) {
      assert front[i] == lineage[i] && front[i - 1] == lineage[i - 1];
    }
    assert Follows(lineage[|lineage| - 2], lineage[|lineage| - 1]);
  }

  lemma NonBreakingComposes(a: Schema, b: Schema, c: Schema)
    requires NonBreaking(a, b) && NonBreaking(b, c)
    ensures NonBreaking(a, c)
  {
    KeepsFieldsComposes(FieldMap(a.fields), FieldMap(b.fields), FieldMap(c.fields));
  }
}

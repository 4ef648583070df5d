/** Histories of committed syncs, and what is left of them when some are forgotten: when the schema
    version still counts every change (internal/sync/planner.go, engine.go). */
module CommitEras {
  import opened Schemas
  import opened Planners

  /** `kept` is `history` without some of its syncs; `at` says where each kept sync stands. */
  ghost predicate KeptAt(kept: seq<SyncRecord>, history: seq<SyncRecord>, at: seq<nat>) {
    && |at| == |kept|
    && (forall i :: 0 <= i < |at| ==> at[i] < |history| && history[at[i]] == kept[i])
    && (forall i, j :: 0 <= i < j < |at| ==> at[i] < at[j])
  }

  ghost predicate IsKeptFrom(kept: seq<SyncRecord>, history: seq<SyncRecord>) {
    exists at :: KeptAt(kept, history, at)
  }

  predicate NoRepeats(history: seq<SyncRecord>) {
    forall i, j :: 0 <= i < j < |history| ==> history[i] != history[j]
  }

  lemma NothingKept(history: seq<SyncRecord>)
    ensures IsKeptFrom([], history)
  {
    assert KeptAt([], history, []);
  }

  lemma KeptFromLonger(kept: seq<SyncRecord>, history: seq<SyncRecord>, next: SyncRecord)
    requires IsKeptFrom(kept, history)
    ensures IsKeptFrom(kept, history + [next]) && IsKeptFrom(kept + [next], history + [next])
  {
    var at: seq<nat> :| KeptAt(kept, history, at);
    assert KeptAt(kept, history + [next], at);
    assert KeptAt(kept + [next], history + [next], at + [|history|]);
  }

  lemma KeptWithoutTheLast(kept: seq<SyncRecord>, last: SyncRecord, history: seq<SyncRecord>)
    requires IsKeptFrom(kept + [last], history)
    ensures IsKeptFrom(kept, history)
  {
    var at: seq<nat> :| KeptAt(kept + [last], history, at);
    assert forall i :: 0 <= i < |kept| ==> (kept + [last])[i] == kept[i];
    assert KeptAt(kept, history, at[..|kept|]);
  }

  // ---------------------------------------------------------------- eras

  predicate SameForm(a: SyncRecord, b: SyncRecord) {
    Canonical(a.schema.fields) == Canonical(b.schema.fields)
  }

  /** The number of schema changes up to a sync: syncs of one era follow each other with one form. */
  function Era(history: seq<SyncRecord>, k: nat): nat
    requires k < |history|
  {
    SchemaChanges(history[..k + 1])
  }

  lemma EraStep(history: seq<SyncRecord>, k: nat)
    requires k + 1 < |history|
    ensures Era(history, k + 1) == Era(history, k) + (if SameForm(history[k + 1], history[k]) then 0 else 1)
  {
    var upTo := history[..k + 2];
    assert upTo[..|upTo| - 1] == history[..k + 1];
    assert upTo[|upTo| - 1] == history[k + 1] && upTo[|upTo| - 2] == history[k];
  }

  /** Eras only grow; within one the form stays, and the next one has another. */
  lemma {:induction false} EraGrows(history: seq<SyncRecord>, j: nat, k: nat)
    requires j <= k < |history|
    ensures Era(history, j) <= Era(history, k)
    ensures Era(history, k) == Era(history, j) ==> SameForm(history[j], history[k])
    ensures Era(history, k) == Era(history, j) + 1 ==> !SameForm(history[j], history[k])
    decreases k
  {
    if j < k {
      EraGrows(history, j, k - 1);
      EraStep(history, k - 1);
    }
  }

  lemma FirstAndLastEra(history: seq<SyncRecord>)
    requires history != []
    ensures Era(history, 0) == 0 && Era(history, |history| - 1) == SchemaChanges(history)
  {
    assert history[..|history|] == history;
  }

  function Eras(history: seq<SyncRecord>): (eras: seq<nat>)
    ensures |eras| == |history| && forall k :: 0 <= k < |eras| ==> eras[k] == Era(history, k)
  {
    seq(|history|, k requires 0 <= k < |history| => Era(history, k))
  }

  // ---------------------------------------------------------------- picking from a numbering

  /** A numbering that starts at 0 and goes up by at most one. */
  predicate Steady(eras: seq<nat>) {
    && (|eras| > 0 ==> eras[0] == 0)
    && forall k :: 0 < k < |eras| ==> eras[k - 1] <= eras[k] <= eras[k - 1] + 1
  }

  ghost predicate Picks(at: seq<nat>, n: nat) {
    (forall i :: 0 <= i < |at| ==> at[i] < n) && forall i, j :: 0 <= i < j < |at| ==> at[i] < at[j]
  }

  /** No number lies between two picked neighbours. */
  ghost predicate NoneSkipped(eras: seq<nat>, at: seq<nat>)
    requires forall i :: 0 <= i < |at| ==> at[i] < |eras|
  {
    forall i :: 0 < i < |at| ==> eras[at[i]] <= eras[at[i - 1]] + 1
  }

  ghost predicate Picked(eras: seq<nat>, at: seq<nat>, era: nat) {
    exists i :: 0 <= i < |at| && at[i] < |eras| && eras[at[i]] == era
  }

  /** Every number is picked. */
  ghost predicate AllPicked(eras: seq<nat>, at: seq<nat>) {
    forall k :: 0 <= k < |eras| ==> Picked(eras, at, eras[k])
  }

  lemma {:induction false} SteadyGrows(eras: seq<nat>, j: nat, k: nat)
    requires Steady(eras) && j <= k < |eras|
    ensures eras[j] <= eras[k]
    decreases k
  {
    if j < k {
      SteadyGrows(eras, j, k - 1);
    }
  }

  /** Between two places no number is left out. */
  lemma {:induction false} PlaceBetween(eras: seq<nat>, j: nat, k: nat, era: nat) returns (m: nat)
    requires Steady(eras) && j <= k < |eras| && eras[j] <= era <= eras[k]
    ensures j <= m <= k && eras[m] == era
    decreases k
  {
    if eras[k] == era {
      m := k;
    } else {
      m := PlaceBetween(eras, j, k - 1, era);
    }
  }

  lemma {:induction false} PicksMeet(eras: seq<nat>, at: seq<nat>, n: nat, era: nat)
    requires Picks(at, |eras|) && NoneSkipped(eras, at) && n < |at|
    requires eras[at[0]] <= era <= eras[at[n]]
    ensures Picked(eras, at, era)
    decreases n
  {
    if eras[at[n]] != era {
      PicksMeet(eras, at, n - 1, era);
    }
  }

  lemma NothingBetweenPicks(eras: seq<nat>, at: seq<nat>, i: nat)
    requires Steady(eras) && Picks(at, |eras|) && AllPicked(eras, at) && 0 < i < |at|
    ensures eras[at[i]] <= eras[at[i - 1]] + 1
  {
    var next := eras[at[i - 1]] + 1;
    if eras[at[i]] > next {
      var m := PlaceBetween(eras, at[i - 1], at[i], next);
      assert Picked(eras, at, eras[m]);
      var p :| 0 <= p < |at| && at[p] < |eras| && eras[at[p]] == next;
      if p < i {
        SteadyGrows(eras, at[p], at[i - 1]);
      } else {
        SteadyGrows(eras, at[i], at[p]);
      }
    }
  }

  /** Picks that begin at 0, end at the highest number and skip none are those that pick them all. */
  lemma AllPickedExactlyWhen(eras: seq<nat>, at: seq<nat>)
    requires Steady(eras) && Picks(at, |eras|) && at != []
    ensures AllPicked(eras, at) <==>
            eras[at[0]] == 0 && eras[at[|at| - 1]] == eras[|eras| - 1] && NoneSkipped(eras, at)
  {
    var top := |eras| - 1;
    if AllPicked(eras, at) {
      assert Picked(eras, at, eras[0]) && Picked(eras, at, eras[top]);
      var p :| 0 <= p < |at| && at[p] < |eras| && eras[at[p]] == eras[0];
      SteadyGrows(eras, at[0], at[p]);
      var q :| 0 <= q < |at| && at[q] < |eras| && eras[at[q]] == eras[top];
      SteadyGrows(eras, at[q], at[|at| - 1]);
      SteadyGrows(eras, at[|at| - 1], top);
      forall i | 0 < i < |at| ensures eras[at[i]] <= eras[at[i - 1]] + 1 {
        NothingBetweenPicks(eras, at, i);
      }
    } else if eras[at[0]] == 0 && eras[at[|at| - 1]] == eras[top] && NoneSkipped(eras, at) {
      forall k | 0 <= k < |eras| ensures Picked(eras, at, eras[k]) {
        SteadyGrows(eras, k, top);
        PicksMeet(eras, at, |at| - 1, eras[k]);
      }
    }
  }

  // ---------------------------------------------------------------- changes among kept syncs

  lemma ErasAreSteady(history: seq<SyncRecord>)
    ensures Steady(Eras(history))
    ensures history != [] ==> Eras(history)[|history| - 1] == SchemaChanges(history)
  {
    if history != [] {
      FirstAndLastEra(history);
    }
    forall k | 0 < k < |history| ensures Era(history, k - 1) <= Era(history, k) <= Era(history, k - 1) + 1 {
      EraStep(history, k - 1);
    }
  }

  /** From one kept sync to the next there is a change exactly when the era changes. */
  lemma OneMoreKept(kept: seq<SyncRecord>, history: seq<SyncRecord>, at: seq<nat>)
    requires KeptAt(kept, history, at) && |kept| > 1
    ensures var n, eras := |kept| - 1, Eras(history);
            && SchemaChanges(kept) + eras[at[n - 1]] <= SchemaChanges(kept[..n]) + eras[at[n]]
            && (SchemaChanges(kept) + eras[at[n - 1]] == SchemaChanges(kept[..n]) + eras[at[n]]
                <==> eras[at[n]] <= eras[at[n - 1]] + 1)
  {
    var n := |kept| - 1;
    EraGrows(history, at[n - 1], at[n]);
    assert kept[n] == history[at[n]] && kept[n - 1] == history[at[n - 1]];
  }

  lemma FrontIsKept(kept: seq<SyncRecord>, history: seq<SyncRecord>, at: seq<nat>)
    requires KeptAt(kept, history, at) && kept != []
    ensures KeptAt(kept[..|kept| - 1], history, at[..|kept| - 1])
  {
  }

  lemma NoneSkippedSnoc(eras: seq<nat>, at: seq<nat>)
    requires |at| > 1 && Picks(at, |eras|)
    ensures NoneSkipped(eras, at) <==>
            NoneSkipped(eras, at[..|at| - 1]) && eras[at[|at| - 1]] <= eras[at[|at| - 2]] + 1
  {
    var front := at[..|at| - 1];
    assert forall i :: 0 <= i < |front| ==> front[i] == at[i];
    if NoneSkipped(eras, at) {
      forall i | 0 < i < |front| ensures eras[front[i]] <= eras[front[i - 1]] + 1 {
        assert eras[at[i]] <= eras[at[i - 1]] + 1;
      }
    }
    if NoneSkipped(eras, front) && eras[at[|at| - 1]] <= eras[at[|at| - 2]] + 1 {
      forall i | 0 < i < |at| ensures eras[at[i]] <= eras[at[i - 1]] + 1 {
        if i < |front| {
          assert eras[front[i]] <= eras[front[i - 1]] + 1;
        }
      }
    }
  }

  /** The kept syncs change their schema at most as often as eras pass, and as often exactly when
      no era is skipped. */
  lemma {:induction false} KeptChanges(kept: seq<SyncRecord>, history: seq<SyncRecord>, at: seq<nat>, eras: seq<nat>)
    requires KeptAt(kept, history, at) && kept != [] && eras == Eras(history)
    ensures eras[at[0]] + SchemaChanges(kept) <= eras[at[|at| - 1]]
    ensures eras[at[0]] + SchemaChanges(kept) == eras[at[|at| - 1]] <==> NoneSkipped(eras, at)
    decreases |kept|
  {
    if |kept| > 1 {
      FrontIsKept(kept, history, at);
      KeptChanges(kept[..|kept| - 1], history, at[..|kept| - 1], eras);
      OneMoreKept(kept, history, at);
      NoneSkippedSnoc(eras, at);
    }
  }

  /** Some sync of the same era as sync `k` is kept. */
  ghost predicate EraKept(kept: seq<SyncRecord>, history: seq<SyncRecord>, k: nat)
    requires k < |history|
  {
    exists j: nat :: j < |history| && Era(history, j) == Era(history, k) && history[j] in kept
  }

  /** No maximal run of syncs with one schema form is forgotten whole. */
  ghost predicate EveryEraKept(kept: seq<SyncRecord>, history: seq<SyncRecord>) {
    forall k: nat :: k < |history| ==> EraKept(kept, history, k)
  }

  lemma PlaceOf(kept: seq<SyncRecord>, history: seq<SyncRecord>, at: seq<nat>, j: nat) returns (i: nat)
    requires KeptAt(kept, history, at) && NoRepeats(history) && j < |history| && history[j] in kept
    ensures i < |at| && at[i] == j
  {
    i :| 0 <= i < |kept| && kept[i] == history[j];
    assert history[at[i]] == history[j];
  }

  lemma EraKeptIsPicked(kept: seq<SyncRecord>, history: seq<SyncRecord>, at: seq<nat>, k: nat)
    requires KeptAt(kept, history, at) && NoRepeats(history) && k < |history|
    ensures EraKept(kept, history, k) <==> Picked(Eras(history), at, Eras(history)[k])
  {
    var eras := Eras(history);
    if EraKept(kept, history, k) {
      var j: nat :| j < |history| && Era(history, j) == Era(history, k) && history[j] in kept;
      var i := PlaceOf(kept, history, at, j);
      assert eras[at[i]] == eras[k];
    }
    if Picked(eras, at, eras[k]) {
      var i :| 0 <= i < |at| && at[i] < |eras| && eras[at[i]] == eras[k];
      assert Era(history, at[i]) == Era(history, k) && history[at[i]] == kept[i];
    }
  }

  lemma EveryEraKeptIsAllPicked(kept: seq<SyncRecord>, history: seq<SyncRecord>, at: seq<nat>)
    requires KeptAt(kept, history, at) && NoRepeats(history)
    ensures EveryEraKept(kept, history) <==> AllPicked(Eras(history), at)
  {
    forall k: nat | k < |history| ensures EraKept(kept, history, k) <==> Picked(Eras(history), at, Eras(history)[k]) {
      EraKeptIsPicked(kept, history, at, k);
    }
  }

  /** The changes counted over the kept syncs are never too many, and they are all changes of the
      history exactly when every era has a kept sync. */
  lemma ChangesAreAllExactlyWhen(kept: seq<SyncRecord>, history: seq<SyncRecord>)
    requires IsKeptFrom(kept, history) && NoRepeats(history) && kept != []
    ensures SchemaChanges(kept) <= SchemaChanges(history)
    ensures SchemaChanges(kept) == SchemaChanges(history) <==> EveryEraKept(kept, history)
  {
    var at: seq<nat> :| KeptAt(kept, history, at);
    EveryEraKeptIsAllPicked(kept, history, at);
    CountedExactlyWhen(kept, history, at, Eras(history));
  }

  lemma CountedExactlyWhen(kept: seq<SyncRecord>, history: seq<SyncRecord>, at: seq<nat>, eras: seq<nat>)
    requires KeptAt(kept, history, at) && kept != [] && eras == Eras(history)
    ensures SchemaChanges(kept) <= SchemaChanges(history)
    ensures SchemaChanges(kept) == SchemaChanges(history) <==> AllPicked(eras, at)
  {
    ErasAreSteady(history);
    KeptChanges(kept, history, at, eras);
    CountOfPicks(eras, at, SchemaChanges(kept));
  }

  lemma CountOfPicks(eras: seq<nat>, at: seq<nat>, changes: nat)
    requires Steady(eras) && Picks(at, |eras|) && at != []
    requires eras[at[0]] + changes <= eras[at[|at| - 1]]
    requires eras[at[0]] + changes == eras[at[|at| - 1]] <==> NoneSkipped(eras, at)
    ensures changes <= eras[|eras| - 1]
    ensures changes == eras[|eras| - 1] <==> AllPicked(eras, at)
  {
    AllPickedExactlyWhen(eras, at);
    SteadyGrows(eras, at[|at| - 1], |eras| - 1);
  }

  // ---------------------------------------------------------------- the last full sync

  lemma {:induction false} AfterLastFull(history: seq<SyncRecord>, k: nat)
    requires history != []
    ensures LastFull(history) < k < |history| ==> history[k].mode != Full
    ensures LastFull(history) > 0 ==> history[LastFull(history)].mode == Full
  {
    if |history| > 1 && history[|history| - 1].mode != Full {
      AfterLastFull(history[..|history| - 1], k);
    }
  }

  /** Kept syncs that still have the last full sync of the history have it as their last. */
  lemma LastFullIsKept(kept: seq<SyncRecord>, history: seq<SyncRecord>)
    requires IsKeptFrom(kept, history) && NoRepeats(history) && history != []
    requires history[LastFull(history)] in kept && kept[0].mode == Full
    ensures kept[LastFull(kept)] == history[LastFull(history)] && kept[LastFull(kept)].mode == Full
  {
    var at: seq<nat> :| KeptAt(kept, history, at);
    var i := PlaceOf(kept, history, at, LastFull(history));
    var p := LastFull(kept);
    AfterLastFull(kept, i);
    AfterLastFull(history, at[p]);
    AfterLastFull(history, 0);
    if i > 0 {
      assert at[i] > at[0];
    }
  }
}

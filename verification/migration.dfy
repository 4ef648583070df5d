/** Migration paths (internal/migration/engine.go): a fold over versions, in either direction. */
module Migrations {
  import opened Wrappers

  datatype MigrationError = MissingMigration(version: int) | StepFailed(version: int) | Invalid(version: int)

  /** One registered migration; its three functions are deterministic. */
  datatype Migration<!Data> = Migration(
    version: int, up: Data -> Option<Data>, down: Data -> Option<Data>, validate: Data -> bool)

  /** The versions between two points, in the order in which they are executed. */
  function Path(fromVersion: int, toVersion: int): seq<int>
    decreases if fromVersion < toVersion then toVersion - fromVersion else fromVersion - toVersion
  {
    if fromVersion == toVersion then []
    else if fromVersion < toVersion then Path(fromVersion, toVersion - 1) + [toVersion]
    else Path(fromVersion, toVersion + 1) + [toVersion + 1]
  }

  /** One step: up or down, then the migration's own validation. */
  function StepOnce<Data>(version: int, m: Migration<Data>, forward: bool, data: Data): Result<Data, MigrationError> {
    match if forward then m.up(data) else m.down(data)
    case None => Err(StepFailed(version))
    case Some(d) => if m.validate(d) then Ok(d) else Err(Invalid(version))
  }

  ghost predicate Registered<Data>(ms: map<int, Migration<Data>>, path: seq<int>) {
    forall i :: 0 <= i < |path| ==> path[i] in ms
  }

  /** The fold over a path all of whose migrations are registered. */
  ghost function RunPath<Data>(ms: map<int, Migration<Data>>, path: seq<int>, forward: bool, data: Data): Result<Data, MigrationError>
    requires Registered(ms, path)
  {
    if path == [] then Ok(data)
    else
      var before := RunPath(ms, path[..|path| - 1], forward, data);
      if before.Err? then before else StepOnce(path[|path| - 1], ms[path[|path| - 1]], forward, before.value)
  }

  /** The migrations along a path. */
  ghost function Steps<Data>(ms: map<int, Migration<Data>>, path: seq<int>): (steps: seq<Migration<Data>>)
    requires Registered(ms, path)
  {
    seq(|path|, i requires 0 <= i < |path| => ms[path[i]])
  }

  /** The data after each step of a path, as far as it goes: every item is what the migration of that
      place makes of the one before, and that migration accepts it. */
  ghost predicate Walk<Data>(ms: map<int, Migration<Data>>, path: seq<int>, forward: bool, data: Data, trace: seq<Data>) {
    && 1 <= |trace| <= |path| + 1 && trace[0] == data
    && forall i :: 0 <= i < |trace| - 1 ==>
         && path[i] in ms
         && (if forward then ms[path[i]].up(trace[i]) else ms[path[i]].down(trace[i])) == Some(trace[i + 1])
         && ms[path[i]].validate(trace[i + 1])
  }

  /** The walk ends with this result: after the whole path with its last item, or at the first step
      that gives nothing or gives something its migration refuses. */
  ghost predicate EndsWith<Data>(ms: map<int, Migration<Data>>, path: seq<int>, forward: bool, trace: seq<Data>,
                                 r: Result<Data, MigrationError>)
    requires 1 <= |trace| <= |path| + 1
  {
    var at := |trace| - 1;
    if at == |path| then r == Ok(trace[at])
    else
      && path[at] in ms
      && var next := if forward then ms[path[at]].up(trace[at]) else ms[path[at]].down(trace[at]);
      if next.None? then r == Err(StepFailed(path[at]))
      else !ms[path[at]].validate(next.value) && r == Err(Invalid(path[at]))
  }

  lemma WalkOn<Data>(ms: map<int, Migration<Data>>, path: seq<int>, forward: bool, data: Data, trace: seq<Data>, d: Data)
    requires Walk(ms, path, forward, data, trace) && |trace| <= |path| && path[|trace| - 1] in ms
    requires (if forward then ms[path[|trace| - 1]].up(trace[|trace| - 1]) else ms[path[|trace| - 1]].down(trace[|trace| - 1])) == Some(d)
    requires ms[path[|trace| - 1]].validate(d)
    ensures Walk(ms, path, forward, data, trace + [d])
  {
    var longer := trace + [d];
    forall i | 0 <= i < |longer| - 1
      ensures path[i] in ms
      ensures (if forward then ms[path[i]].up(longer[i]) else ms[path[i]].down(longer[i])) == Some(longer[i + 1])
      ensures ms[path[i]].validate(longer[i + 1])
    {
      assert longer[i] == trace[i];
      if i < |trace| - 1 {
        assert longer[i + 1] == trace[i + 1];
      }
    }
  }

  /** Whatever walk ends with a result is the migration along the path: so the path succeeds, fails at
      a step, or is refused at a step exactly as a walk does. */
  lemma {:induction false} WalkDecides<Data>(ms: map<int, Migration<Data>>, path: seq<int>, forward: bool, data: Data, trace: seq<Data>,
                                             r: Result<Data, MigrationError>)
    requires Registered(ms, path) && Walk(ms, path, forward, data, trace)
    ensures RunPath(ms, path[..|trace| - 1], forward, data) == Ok(trace[|trace| - 1])
    ensures EndsWith(ms, path, forward, trace, r) ==> r == RunPath(ms, path, forward, data)
    decreases |trace|
  {
    var at := |trace| - 1;
    if at > 0 {
      var front := trace[..at];
      WalkDecides(ms, path, forward, data, front, r);
      assert front[at - 1] == trace[at - 1] && path[at - 1] in ms;
      assert path[..at][..at - 1] == path[..at - 1];
    }
    assert path[..|path|] == path;
    if EndsWith(ms, path, forward, trace, r) && at < |path| {
      NextStep(ms, path, at, forward, data, trace[at]);
    }
  }

  function FirstMissing<Data>(ms: map<int, Migration<Data>>, path: seq<int>): Option<int> {
    if path == [] then None
    else if path[0] !in ms then Some(path[0])
    else FirstMissing(ms, path[1..])
  }

  lemma {:induction false} NoneMissing<Data>(ms: map<int, Migration<Data>>, path: seq<int>)
    ensures FirstMissing(ms, path) == None <==> Registered(ms, path)
  {
    if path != [] {
      NoneMissing(ms, path[1..]);
      assert forall i :: 0 < i < |path| ==> path[i] == path[1..][i - 1];
      assert forall i :: 0 <= i < |path| - 1 ==> path[1..][i] == path[i + 1];
    }
  }

  lemma {:induction false} FirstMissingIs<Data>(ms: map<int, Migration<Data>>, path: seq<int>)
    requires !Registered(ms, path)
    ensures exists i :: 0 <= i < |path| && FirstMissing(ms, path) == Some(path[i]) && path[i] !in ms
                        && forall j :: 0 <= j < i ==> path[j] in ms
  {
    if path[0] in ms {
      var rest := path[1..];
      assert !Registered(ms, rest) by {
        var k :| 0 <= k < |path| && path[k] !in ms;
        assert rest[k - 1] == path[k];
      }
      FirstMissingIs(ms, rest);
      var i :| 0 <= i < |rest| && FirstMissing(ms, rest) == Some(rest[i]) && rest[i] !in ms && forall j :: 0 <= j < i ==> rest[j] in ms;
      assert rest[i] == path[i + 1] && forall j :: 0 < j <= i ==> path[j] == rest[j - 1];
    }
  }

  /** Missing migrations are found before any step runs. */
  ghost function Migrate<Data>(ms: map<int, Migration<Data>>, data: Data, fromVersion: int, toVersion: int): Result<Data, MigrationError> {
    var path := Path(fromVersion, toVersion);
    var missing := FirstMissing(ms, path);
    NoneMissing(ms, path);
    if missing.Some? then Err(MissingMigration(missing.value)) else RunPath(ms, path, fromVersion < toVersion, data)
  }

  /** The versions whose migrations lie between the two: those after the lower one, up to the higher. */
  predicate Between(fromVersion: int, toVersion: int, v: int) {
    fromVersion < v <= toVersion || toVersion < v <= fromVersion
  }

  lemma {:induction false} PathElements(fromVersion: int, toVersion: int, v: int)
    ensures v in Path(fromVersion, toVersion) <==> Between(fromVersion, toVersion, v)
    decreases if fromVersion < toVersion then toVersion - fromVersion else fromVersion - toVersion
  {
    if fromVersion < toVersion {
      PathElements(fromVersion, toVersion - 1, v);
    } else if fromVersion > toVersion {
      PathElements(fromVersion, toVersion + 1, v);
    }
  }

  /** A path can be run exactly when every migration between its ends is registered. */
  lemma RegisteredExactlyWhen<Data>(ms: map<int, Migration<Data>>, fromVersion: int, toVersion: int)
    ensures Registered(ms, Path(fromVersion, toVersion)) <==> forall v :: Between(fromVersion, toVersion, v) ==> v in ms
  {
    var path := Path(fromVersion, toVersion);
    if Registered(ms, path) {
      forall v | Between(fromVersion, toVersion, v) ensures v in ms {
        PathElements(fromVersion, toVersion, v);
        var i :| 0 <= i < |path| && path[i] == v;
      }
    }
    if forall v :: Between(fromVersion, toVersion, v) ==> v in ms {
      forall i | 0 <= i < |path| ensures path[i] in ms {
        PathElements(fromVersion, toVersion, path[i]);
      }
    }
  }

  lemma {:induction false} PathComposes(a: int, b: int, c: int)
    requires a <= b <= c || a >= b >= c
    ensures Path(a, c) == Path(a, b) + Path(b, c)
    decreases if b < c then c - b else b - c
  {
    if b < c {
      PathComposes(a, b, c - 1);
    } else if b > c {
      PathComposes(a, b, c + 1);
    }
  }

  lemma {:induction false} PathReverses(a: int, b: int)
    requires a < b
    ensures Path(b, a) == [b] + Path(b - 1, a)
    decreases b - a
  {
    PathComposes(b, b - 1, a);
    assert Path(b, b - 1) == [] + [b];
  }

  class MigrationEngine<!Data> {
    var migrations: map<int, Migration<Data>>

    constructor ()
      ensures migrations == map[]
    {
      migrations := map[];
    }

    method RegisterMigration(m: Migration<Data>) returns (ok: bool)
      modifies this
      ensures ok <==> m.version > 0 && m.version !in old(migrations)
      ensures migrations == if ok then old(migrations)[m.version := m] else old(migrations)
    {
      if m.version <= 0 || m.version in migrations {
        return false;
      }
      migrations := migrations[m.version := m];
      ok := true;
    }

    /** Collects the versions to visit, or the first one that is missing. */
    method CollectPath(fromVersion: int, toVersion: int) returns (r: Result<seq<int>, MigrationError>)
      ensures var path := Path(fromVersion, toVersion);
              var missing := FirstMissing(migrations, path);
              r == if missing.Some? then Err(MissingMigration(missing.value)) else Ok(path)
      ensures r.Ok? <==> forall v :: Between(fromVersion, toVersion, v) ==> v in migrations
    {
      RegisteredExactlyWhen(migrations, fromVersion, toVersion);
      NoneMissing(migrations, Path(fromVersion, toVersion));
      r := CollectVersions(fromVersion, toVersion);
    }

    /** The two loops, one for each direction. */
    method CollectVersions(fromVersion: int, toVersion: int) returns (r: Result<seq<int>, MigrationError>)
      ensures var path := Path(fromVersion, toVersion);
              var missing := FirstMissing(migrations, path);
              r == if missing.Some? then Err(MissingMigration(missing.value)) else Ok(path)
    {
      var path: seq<int> := [];
      if fromVersion < toVersion {
        var v := fromVersion + 1;
        while v <= toVersion
          invariant fromVersion < v <= toVersion + 1
          invariant path == Path(fromVersion, v - 1)
          invariant Registered(migrations, path)
        {
          if v !in migrations {
            MissingAfter(migrations, path, v, Path(v, toVersion));
            PathComposes(fromVersion, v, toVersion);
            return Err(MissingMigration(v));
          }
          path := path + [v];
          v := v + 1;
        }
      } else {
        var v := fromVersion;
        while v > toVersion
          invariant toVersion <= v <= fromVersion
          invariant path == Path(fromVersion, v)
          invariant Registered(migrations, path)
        {
          if v !in migrations {
            MissingAfter(migrations, path, v, Path(v - 1, toVersion));
            PathComposes(fromVersion, v, toVersion);
            PathReverses(toVersion, v);
            assert path + Path(v, toVersion) == path + [v] + Path(v - 1, toVersion);
            return Err(MissingMigration(v));
          }
          path := path + [v];
          v := v - 1;
        }
      }
      NoneMissing(migrations, path);
      r := Ok(path);
    }

    /** Runs the path; `executed` lists the migrations whose step was started, and `trace` the data
        after each step that went through. */
    method ExecuteMigrationPath(data: Data, fromVersion: int, toVersion: int)
      returns (r: Result<Data, MigrationError>, executed: seq<Migration<Data>>, ghost trace: seq<Data>)
      ensures r == Migrate(migrations, data, fromVersion, toVersion)
      ensures var path, forward := Path(fromVersion, toVersion), fromVersion < toVersion;
              if Registered(migrations, path) then
                && Walk(migrations, path, forward, data, trace) && EndsWith(migrations, path, forward, trace, r)
                && executed == Steps(migrations, path)[..if |trace| <= |path| then |trace| else |path|]
              else
                executed == [] && exists i :: 0 <= i < |path| && r == Err(MissingMigration(path[i])) && path[i] !in migrations
                                              && forall j :: 0 <= j < i ==> path[j] in migrations
    {
      executed, trace := [], [data];
      var forward := fromVersion < toVersion;
      NoneMissing(migrations, Path(fromVersion, toVersion));
      if fromVersion == toVersion {
        return Ok(data), executed, trace;
      }
      var collected := CollectPath(fromVersion, toVersion);
      if collected.Err? {
        FirstMissingIs(migrations, Path(fromVersion, toVersion));
        return Err(collected.error), executed, trace;
      }
      var path := collected.value;
      var current := data;
      for i := 0 to |path|
        invariant executed == Steps(migrations, path)[..i]
        invariant |trace| == i + 1 && trace[i] == current && Walk(migrations, path, forward, data, trace)
      {
        assert Steps(migrations, path)[..i + 1] == Steps(migrations, path)[..i] + [migrations[path[i]]];
        var m := migrations[path[i]];
        executed := executed + [m];
        var step := if forward then m.up(current) else m.down(current);
        if step.None? {
          WalkDecides(migrations, path, forward, data, trace, Err(StepFailed(path[i])));
          return Err(StepFailed(path[i])), executed, trace;
        }
        if !m.validate(step.value) {
          WalkDecides(migrations, path, forward, data, trace, Err(Invalid(path[i])));
          return Err(Invalid(path[i])), executed, trace;
        }
        WalkOn(migrations, path, forward, data, trace, step.value);
        current, trace := step.value, trace + [step.value];
      }
      WalkDecides(migrations, path, forward, data, trace, Ok(current));
      r := Ok(current);
    }

    /** The plan is the list of migrations that a successful execution runs, in that order. */
    method GetMigrationPlan(fromVersion: int, toVersion: int) returns (r: Result<seq<Migration<Data>>, MigrationError>)
      ensures var path := Path(fromVersion, toVersion);
              var missing := FirstMissing(migrations, path);
              if missing.Some? then r == Err(MissingMigration(missing.value))
              else Registered(migrations, path) && r == Ok(Steps(migrations, path))
      ensures r.Ok? ==> |r.value| == |Path(fromVersion, toVersion)|
      ensures r.Ok? ==> forall i :: 0 <= i < |r.value| ==>
                          Path(fromVersion, toVersion)[i] in migrations && r.value[i] == migrations[Path(fromVersion, toVersion)[i]]
    {
      NoneMissing(migrations, Path(fromVersion, toVersion));
      var collected := CollectPath(fromVersion, toVersion);
      if collected.Err? {
        return Err(collected.error);
      }
      var path := collected.value;
      var plan: seq<Migration<Data>> := [];
      for i := 0 to |path|
        invariant plan == Steps(migrations, path)[..i]
      {
        plan := plan + [migrations[path[i]]];
      }
      assert plan == Steps(migrations, path);
      r := Ok(plan);
    }
  }

  lemma {:induction false} MissingAfter<Data>(ms: map<int, Migration<Data>>, good: seq<int>, bad: int, rest: seq<int>)
    requires Registered(ms, good) && bad !in ms
    ensures FirstMissing(ms, good + [bad] + rest) == Some(bad)
  {
    if good != [] {
      assert (good + [bad] + rest)[1..] == good[1..] + [bad] + rest;
      assert good[0] in ms;
      MissingAfter(ms, good[1..], bad, rest);
    } else {
      assert (good + [bad] + rest)[0] == bad;
    }
  }

  lemma {:induction false} FailurePersists<Data>(ms: map<int, Migration<Data>>, path: seq<int>, n: nat, forward: bool, data: Data)
    requires n <= |path| && Registered(ms, path)
    requires RunPath(ms, path[..n], forward, data).Err?
    ensures RunPath(ms, path, forward, data) == RunPath(ms, path[..n], forward, data)
    decreases |path|
  {
    if n < |path| {
      assert path[..|path| - 1][..n] == path[..n];
      FailurePersists(ms, path[..|path| - 1], n, forward, data);
    } else {
      assert path[..n] == path;
    }
  }

  lemma NextStep<Data>(ms: map<int, Migration<Data>>, path: seq<int>, i: nat, forward: bool, data: Data, current: Data)
    requires i < |path| && Registered(ms, path) && RunPath(ms, path[..i], forward, data) == Ok(current)
    ensures RunPath(ms, path[..i + 1], forward, data) == StepOnce(path[i], ms[path[i]], forward, current)
    ensures StepOnce(path[i], ms[path[i]], forward, current).Err? ==>
              RunPath(ms, path, forward, data) == StepOnce(path[i], ms[path[i]], forward, current)
  {
    assert path[..i + 1][..i] == path[..i];
    if RunPath(ms, path[..i + 1], forward, data).Err? {
      FailurePersists(ms, path, i + 1, forward, data);
    }
  }

  lemma RegisteredConcat<Data>(ms: map<int, Migration<Data>>, p: seq<int>, q: seq<int>)
    ensures Registered(ms, p + q) <==> Registered(ms, p) && Registered(ms, q)
  {
    assert forall i :: 0 <= i < |p| ==> (p + q)[i] == p[i];
    assert forall i :: 0 <= i < |q| ==> (p + q)[|p| + i] == q[i];
  }

  lemma {:induction false} RunPathComposes<Data>(ms: map<int, Migration<Data>>, p: seq<int>, q: seq<int>, forward: bool, data: Data)
    requires Registered(ms, p) && Registered(ms, q) && Registered(ms, p + q)
    ensures var first := RunPath(ms, p, forward, data);
            RunPath(ms, p + q, forward, data) == if first.Err? then first else RunPath(ms, q, forward, first.value)
    decreases |q|
  {
    if q == [] {
      assert p + q == p;
    } else {
      assert (p + q)[..|p + q| - 1] == p + q[..|q| - 1];
      RunPathComposes(ms, p, q[..|q| - 1], forward, data);
    }
  }

  ghost function Then<Data>(ms: map<int, Migration<Data>>, first: Result<Data, MigrationError>, fromVersion: int, toVersion: int)
    : Result<Data, MigrationError>
  {
    if first.Err? then first else Migrate(ms, first.value, fromVersion, toVersion)
  }

  /** Going a to b and then b to c is going a to c, in both directions: the same data on success,
      and success of one exactly when of the other; with every migration registered the errors
      agree too. */
  lemma MigrationsCompose<Data>(ms: map<int, Migration<Data>>, data: Data, a: int, b: int, c: int)
    requires a <= b <= c || a >= b >= c
    ensures var whole, parts := Migrate(ms, data, a, c), Then(ms, Migrate(ms, data, a, b), b, c);
            && (whole.Ok? <==> parts.Ok?)
            && (whole.Ok? ==> whole == parts)
            && (FirstMissing(ms, Path(a, c)) == None ==> whole == parts)
  {
    var p, q := Path(a, b), Path(b, c);
    PathComposes(a, b, c);
    NoneMissing(ms, p + q);
    NoneMissing(ms, p);
    NoneMissing(ms, q);
    RegisteredConcat(ms, p, q);
    if Registered(ms, p + q) {
      RunPathComposes(ms, p, q, a < c, data);
    }
  }

  /** Every `Down` undoes what its `Up` produced. */
  ghost predicate DownInvertsUp<Data(!new)>(ms: map<int, Migration<Data>>) {
    forall v, d :: v in ms && ms[v].up(d).Some? ==> ms[v].down(ms[v].up(d).value) == Some(d)
  }

  /** A successful forward path followed by a successful reverse path returns the original data. */
  lemma {:induction false} ForwardThenBack<Data(!new)>(ms: map<int, Migration<Data>>, data: Data, a: int, b: int)
    requires a <= b && DownInvertsUp(ms)
    requires Migrate(ms, data, a, b).Ok?
    requires Migrate(ms, Migrate(ms, data, a, b).value, b, a).Ok?
    ensures Migrate(ms, Migrate(ms, data, a, b).value, b, a).value == data
    decreases b - a
  {
    if a < b {
      var there := Migrate(ms, data, a, b).value;
      MigrationsCompose(ms, data, a, b - 1, b);
      MigrationsCompose(ms, there, b, b - 1, a);
      var near := Migrate(ms, data, a, b - 1).value;
      LastStep(ms, near, b - 1, b);
      LastStep(ms, there, b, b - 1);
      assert ms[b].up(near) == Some(there);
      assert ms[b].down(ms[b].up(near).value) == Some(near);
      assert Migrate(ms, there, b, b - 1) == StepOnce(b, ms[b], false, there);
      assert Migrate(ms, there, b, b - 1) == Ok(near);
      ForwardThenBack(ms, data, a, b - 1);
    }
  }

  lemma LastStep<Data>(ms: map<int, Migration<Data>>, data: Data, fromVersion: int, toVersion: int)
    requires toVersion == fromVersion + 1 || toVersion == fromVersion - 1
    requires Migrate(ms, data, fromVersion, toVersion).Ok?
    ensures var v := if fromVersion < toVersion then toVersion else fromVersion;
            v in ms && StepOnce(v, ms[v], fromVersion < toVersion, data) == Migrate(ms, data, fromVersion, toVersion)
  {
    var v := if fromVersion < toVersion then toVersion else fromVersion;
    var p := Path(fromVersion, toVersion);
    assert Path(fromVersion, fromVersion) == [];
    assert p == [v];
    NoneMissing(ms, p);
    assert p[0] in ms;
    assert p[..|p| - 1] == [];
    assert RunPath(ms, p[..|p| - 1], fromVersion < toVersion, data) == Ok(data);
  }
}

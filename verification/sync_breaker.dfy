/** The sync package's own breaker (internal/sync/recovery.go): its critical sections as pure
    functions, the class that runs them while others run theirs, and any number of callers
    interleaved at its lock boundaries. */
module SyncBreakers {
  import opened CircuitBreakers

  datatype GuardFields = GuardFields(maxFailures: int, resetTimeout: int, state: State, failures: int, lastFailureTime: int)

  function NewGuard(maxFailures: int, resetTimeout: int): GuardFields {
    GuardFields(maxFailures, resetTimeout, Closed, 0, 0)
  }

  predicate TimedOut(g: GuardFields, now: int) {
    now - g.lastFailureTime > g.resetTimeout
  }

  /** The write-locked double check of `canExecute`. */
  function GuardUpgrade(g: GuardFields, now: int): GuardFields {
    if g.state == Open && TimedOut(g, now) then g.(state := HalfOpen) else g
  }

  function GuardRecord(g: GuardFields, succeeded: bool, now: int): GuardFields {
    if succeeded then g.(failures := 0, state := if g.state == HalfOpen then Closed else g.state)
    else
      var f := g.failures + 1;
      g.(failures := f, lastFailureTime := now, state := if f >= g.maxFailures then Open else g.state)
  }

  /** What one write-locked section of any caller does to the fields. */
  datatype GuardStep = UpgradeAt(now: int) | RecordAt(succeeded: bool, now: int)

  function GuardNext(g: GuardFields, step: GuardStep): GuardFields {
    match step
    case UpgradeAt(now) => GuardUpgrade(g, now)
    case RecordAt(succeeded, now) => GuardRecord(g, succeeded, now)
  }

  function GuardRun(g: GuardFields, steps: seq<GuardStep>): GuardFields {
    if steps == [] then g else GuardNext(GuardRun(g, steps[..|steps| - 1]), steps[|steps| - 1])
  }

  /** What others do around one check: before it takes the write lock, and before it reads back. */
  datatype Gaps = Gaps(beforeLock: seq<GuardStep>, beforeReread: seq<GuardStep>)

  const NO_GAPS := Gaps([], [])

  /** `canExecute`: unlike the retry package's, it admits on the state it reads back. */
  function GuardCheck(g: GuardFields, readTime: int, lockTime: int, gaps: Gaps): (GuardFields, bool) {
    if g.state != Open then (g, true)
    else if !TimedOut(g, readTime) then (g, false)
    else
      var reread := GuardRun(GuardUpgrade(GuardRun(g, gaps.beforeLock), lockTime), gaps.beforeReread);
      (reread, reread.state == HalfOpen)
  }

  class SyncBreaker {
    const maxFailures: int
    const resetTimeout: int
    var state: State
    var failures: int
    var lastFailureTime: int

    ghost function View(): GuardFields
      reads this
    {
      GuardFields(maxFailures, resetTimeout, state, failures, lastFailureTime)
    }

    constructor (maxFailures: int, resetTimeout: int)
      ensures View() == NewGuard(maxFailures, resetTimeout)
    {
      this.maxFailures, this.resetTimeout := maxFailures, resetTimeout;
      state, failures, lastFailureTime := Closed, 0, 0;
    }

    method CanExecute(readTime: int, lockTime: int, gaps: Gaps) returns (admitted: bool)
      modifies this
      ensures (View(), admitted) == GuardCheck(old(View()), readTime, lockTime, gaps)
      ensures admitted <==> old(state) != Open || (readTime - old(lastFailureTime) > resetTimeout && state == HalfOpen)
    {
      match state
      case Closed => admitted := true;
      case HalfOpen => admitted := true;
      case Open =>
        if readTime - lastFailureTime > resetTimeout {
          OthersRun(gaps.beforeLock);
          TryUpgrade(lockTime);
          OthersRun(gaps.beforeReread);
          return state == HalfOpen;
        }
        admitted := false;
    }

    method TryUpgrade(now: int)
      modifies this
      ensures View() == GuardUpgrade(old(View()), now)
    {
      if state == Open && now - lastFailureTime > resetTimeout {
        state := HalfOpen;
      }
    }

    method RecordFailure(now: int)
      modifies this
      ensures View() == GuardRecord(old(View()), false, now)
    {
      failures := failures + 1;
      lastFailureTime := now;
      if failures >= maxFailures {
        state := Open;
      }
    }

    method RecordSuccess(now: int)
      modifies this
      ensures View() == GuardRecord(old(View()), true, now)
    {
      failures := 0;
      if state == HalfOpen {
        state := Closed;
      }
    }

    /** Other callers of the same breaker run their write-locked sections. */
    method OthersRun(steps: seq<GuardStep>)
      modifies this
      ensures View() == GuardRun(old(View()), steps)
    {
      for i := 0 to |steps|
        invariant View() == GuardRun(old(View()), steps[..i])
      {
        assert steps[..i + 1][..i] == steps[..i];
        match steps[i]
        case UpgradeAt(now) => TryUpgrade(now);
        case RecordAt(succeeded, now) =>
          if succeeded {
            RecordSuccess(now);
          } else {
            RecordFailure(now);
          }
      }
      assert steps[..|steps|] == steps;
    }
  }

  // ---------------------------------------------------------------- interleaved callers

  /** Where a caller stands inside `Execute`. */
  datatype Caller =
    | Idle
    | Waiting      // read Open past its timeout, between the read unlock and the write lock
    | Rereading    // between the write unlock and the second read lock
    | Admitted     // running the operation, nothing recorded yet

  datatype System = System(guard: GuardFields, callers: map<nat, Caller>, now: int, results: seq<bool>)

  datatype Step =
    | Check(caller: nat)
    | Lock(caller: nat)
    | Reread(caller: nat)
    | Finish(caller: nat, succeeded: bool)
    | Tick(elapsed: nat)

  function CallerOf(s: System, c: nat): Caller {
    if c in s.callers then s.callers[c] else Idle
  }

  predicate Enabled(s: System, step: Step) {
    match step
    case Check(c) => CallerOf(s, c).Idle?
    case Lock(c) => CallerOf(s, c).Waiting?
    case Reread(c) => CallerOf(s, c).Rereading?
    case Finish(c, _) => CallerOf(s, c).Admitted?
    case Tick(_) => true
  }

  function Next(s: System, step: Step): System
    requires Enabled(s, step)
  {
    match step
    case Check(c) =>
      var next := if s.guard.state != Open then Admitted else if TimedOut(s.guard, s.now) then Waiting else Idle;
      s.(callers := s.callers[c := next])
    case Lock(c) =>
      s.(guard := GuardUpgrade(s.guard, s.now), callers := s.callers[c := Rereading])
    case Reread(c) =>
      s.(callers := s.callers[c := if s.guard.state == HalfOpen then Admitted else Idle])
    case Finish(c, ok) =>
      s.(guard := GuardRecord(s.guard, ok, s.now), callers := s.callers[c := Idle], results := s.results + [ok])
    case Tick(d) =>
      s.(now := s.now + d)
  }

  function Start(maxFailures: int, resetTimeout: int, now: int): System {
    System(NewGuard(maxFailures, resetTimeout), map[], now, [])
  }

  ghost predicate RunsTo(s: System, steps: seq<Step>, t: System)
    decreases |steps|
  {
    if steps == [] then s == t
    else Enabled(s, steps[0]) && RunsTo(Next(s, steps[0]), steps[1..], t)
  }

  function FailuresSinceSuccess(results: seq<bool>): nat {
    if results == [] || results[|results| - 1] then 0
    else FailuresSinceSuccess(results[..|results| - 1]) + 1
  }

  /** The count is that of the failures since the last success, and Closed is below the threshold. */
  predicate Inv(s: System) {
    && s.guard.maxFailures >= 1
    && s.guard.failures == FailuresSinceSuccess(s.results)
    && (s.guard.state == Closed ==> s.guard.failures < s.guard.maxFailures)
  }

  lemma StepKeepsInv(s: System, step: Step)
    requires Inv(s) && Enabled(s, step)
    ensures Inv(Next(s, step)) && Next(s, step).guard.maxFailures == s.guard.maxFailures
  {
    if step.Finish? {
      assert (s.results + [step.succeeded])[..|s.results|] == s.results;
    }
  }

  lemma {:induction false} RunKeepsInv(s: System, steps: seq<Step>, t: System)
    requires Inv(s) && RunsTo(s, steps, t)
    ensures Inv(t) && t.guard.maxFailures == s.guard.maxFailures
    decreases |steps|
  {
    if steps != [] {
      StepKeepsInv(s, steps[0]);
      RunKeepsInv(Next(s, steps[0]), steps[1..], t);
    }
  }

  /** For every interleaving the breaker counts the failures since the last success, and is closed
      only below its threshold. */
  lemma ReachableGuard(maxFailures: int, resetTimeout: int, now: int, steps: seq<Step>, t: System)
    requires maxFailures >= 1
    requires RunsTo(Start(maxFailures, resetTimeout, now), steps, t)
    ensures t.guard.failures == FailuresSinceSuccess(t.results)
    ensures t.guard.state == Closed ==> t.guard.failures < maxFailures
  {
    RunKeepsInv(Start(maxFailures, resetTimeout, now), steps, t);
  }

  /** A failed probe opens the half-open breaker again exactly when, itself included, the failures
      since the last success reach the threshold. */
  lemma FailedProbeReopensExactlyWhen(maxFailures: int, resetTimeout: int, now: int, steps: seq<Step>, s: System, c: nat)
    requires maxFailures >= 1
    requires RunsTo(Start(maxFailures, resetTimeout, now), steps, s)
    requires s.guard.state == HalfOpen && Enabled(s, Finish(c, false))
    ensures Next(s, Finish(c, false)).guard.state == Open <==> FailuresSinceSuccess(s.results) + 1 >= maxFailures
  {
    RunKeepsInv(Start(maxFailures, resetTimeout, now), steps, s);
  }

  lemma {:induction false} RunsCompose(s: System, first: seq<Step>, mid: System, second: seq<Step>, t: System)
    requires RunsTo(s, first, mid) && RunsTo(mid, second, t)
    ensures RunsTo(s, first + second, t)
    decreases |first|
  {
    if first == [] {
      assert first + second == second;
    } else {
      RunsCompose(Next(s, first[0]), first[1..], mid, second, t);
      assert (first + second)[1..] == first[1..] + second;
    }
  }

  lemma RunOne(s: System, steps: seq<Step>, t: System, step: Step) returns (longer: seq<Step>, next: System)
    requires RunsTo(s, steps, t) && Enabled(t, step)
    ensures next == Next(t, step) && RunsTo(s, longer, next)
  {
    longer, next := steps + [step], Next(t, step);
    assert [step][1..] == [];
    assert RunsTo(t, [step], next);
    RunsCompose(s, steps, t, [step], next);
  }

  /** Callers 0, 1 and 2 are admitted while the breaker is closed; 0 and 1 open it; the late success
      of 2 clears the count of the open breaker. */
  lemma ALateSuccessClearsTheCount() returns (steps: seq<Step>, s: System)
    ensures RunsTo(Start(2, 10, 100), steps, s)
    ensures s.guard == GuardFields(2, 10, Open, 0, 100) && s.now == 100 && CallerOf(s, 3) == Idle
  {
    var s0 := Start(2, 10, 100);
    steps, s := RunOne(s0, [], s0, Check(0));
    steps, s := RunOne(s0, steps, s, Check(1));
    steps, s := RunOne(s0, steps, s, Check(2));
    steps, s := RunOne(s0, steps, s, Finish(0, false));
    steps, s := RunOne(s0, steps, s, Finish(1, false));
    steps, s := RunOne(s0, steps, s, Finish(2, true));
  }

  /** That it may not: after such a success the failed probe of caller 3 leaves the breaker
      half-open. */
  lemma ALateSuccessDisarmsTheProbe()
    ensures exists steps, s ::
      && RunsTo(Start(2, 10, 100), steps, s)
      && s.guard.state == HalfOpen && Enabled(s, Finish(3, false))
      && Next(s, Finish(3, false)).guard.state == HalfOpen
  {
    var s0 := Start(2, 10, 100);
    var steps, s := ALateSuccessClearsTheCount();
    steps, s := RunOne(s0, steps, s, Tick(11));
    steps, s := RunOne(s0, steps, s, Check(3));
    steps, s := RunOne(s0, steps, s, Lock(3));
    steps, s := RunOne(s0, steps, s, Reread(3));
    assert s.guard == GuardFields(2, 10, HalfOpen, 0, 100);
  }

  /** One caller at a time: check, and record the result if admitted. */
  datatype Turn = Turn(readTime: int, lockTime: int, succeeded: bool, now: int)

  function TakeTurns(g: GuardFields, turns: seq<Turn>): GuardFields {
    if turns == [] then g
    else
      var t := turns[|turns| - 1];
      var (checked, admitted) := GuardCheck(TakeTurns(g, turns[..|turns| - 1]), t.readTime, t.lockTime, NO_GAPS);
      if admitted then GuardRecord(checked, t.succeeded, t.now) else checked
  }

  /** Used by one caller at a time it is closed exactly below its threshold, so that every failed
      probe opens it again. */
  lemma {:induction false} OneAtATimeClosedBelowThreshold(maxFailures: int, resetTimeout: int, turns: seq<Turn>)
    requires maxFailures >= 1
    ensures var g := TakeTurns(NewGuard(maxFailures, resetTimeout), turns);
            && g.maxFailures == maxFailures && g.failures >= 0
            && (g.state == Closed <==> g.failures < maxFailures)
  {
    if turns != [] {
      OneAtATimeClosedBelowThreshold(maxFailures, resetTimeout, turns[..|turns| - 1]);
    }
  }
}

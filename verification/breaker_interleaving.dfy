/** Any number of callers sharing one breaker, interleaved at the lock boundaries of
    internal/retry/circuit_breaker.go: the locked read, the unlocked decision, the locked
    upgrade, the call itself, and the locked recording. */
module BreakerInterleaving {
  import opened CircuitBreakers

  /** Where a caller stands inside `Execute`. */
  datatype Caller =
    | Idle
    | Seen(state: State, lastFailureTime: int)   // read under the read lock, not yet decided
    | Upgrading                                  // decided to take the write lock
    | Admitted                                   // running the operation, nothing recorded yet

  /** What the callers have done to the breaker, oldest first. */
  datatype Event = Recorded(succeeded: bool, inState: State, at: int) | WasReset

  datatype System = System(breaker: Fields, callers: map<nat, Caller>, now: int, history: seq<Event>)

  datatype Step =
    | Read(caller: nat)
    | DecideStep(caller: nat)
    | Lock(caller: nat)
    | Finish(caller: nat, succeeded: bool)
    | ResetAll
    | Tick(elapsed: nat)

  function CallerOf(s: System, c: nat): Caller {
    if c in s.callers then s.callers[c] else Idle
  }

  predicate Enabled(s: System, step: Step) {
    match step
    case Read(c) => CallerOf(s, c).Idle?
    case DecideStep(c) => CallerOf(s, c).Seen?
    case Lock(c) => CallerOf(s, c).Upgrading?
    case Finish(c, _) => CallerOf(s, c).Admitted?
    case ResetAll => true
    case Tick(_) => true
  }

  function Next(s: System, step: Step): System
    requires Enabled(s, step)
  {
    match step
    case Read(c) =>
      s.(callers := s.callers[c := Seen(s.breaker.state, s.breaker.lastFailureTime)])
    case DecideStep(c) =>
      var seen := CallerOf(s, c);
      var next := match Decide(seen.state, seen.lastFailureTime, s.breaker.resetTimeout, s.now)
                  case Admit => Admitted
                  case TryUpgrade => Upgrading
                  case Refuse => Idle;
      s.(callers := s.callers[c := next])
    case Lock(c) =>
      // The caller is admitted whether or not the second check still holds.
      s.(breaker := Upgrade(s.breaker, s.now), callers := s.callers[c := Admitted])
    case Finish(c, ok) =>
      s.(breaker := Record(s.breaker, ok, s.now), callers := s.callers[c := Idle],
         history := s.history + [Recorded(ok, s.breaker.state, s.now)])
    case ResetAll =>
      s.(breaker := Cleared(s.breaker), history := s.history + [WasReset])
    case Tick(d) =>
      s.(now := s.now + d)
  }

  function Start(maxFailures: int, resetTimeout: int, now: int): System {
    System(Fresh(maxFailures, resetTimeout), map[], now, [])
  }

  ghost predicate RunsTo(s: System, steps: seq<Step>, t: System)
    decreases |steps|
  {
    if steps == [] then s == t
    else Enabled(s, steps[0]) && RunsTo(Next(s, steps[0]), steps[1..], t)
  }

  // ---------------------------------------------------------------- what the history says

  /** Failures recorded since the last reset or the last success of a half-open probe. */
  function FailuresSinceRecovery(history: seq<Event>): nat {
    if history == [] then 0
    else
      var before, last := FailuresSinceRecovery(history[..|history| - 1]), history[|history| - 1];
      match last
      case WasReset => 0
      case Recorded(ok, state, _) => if !ok then before + 1 else if state == HalfOpen then 0 else before
  }

  function CountSinceReset(history: seq<Event>, succeeded: bool): nat {
    if history == [] then 0
    else
      var before, last := CountSinceReset(history[..|history| - 1], succeeded), history[|history| - 1];
      match last
      case WasReset => 0
      case Recorded(ok, _, _) => if ok == succeeded then before + 1 else before
  }

  /** When a result of this kind was recorded last, since the last reset. */
  function LastTime(history: seq<Event>, succeeded: bool): int {
    if history == [] then ZERO_TIME
    else
      var last := history[|history| - 1];
      match last
      case WasReset => ZERO_TIME
      case Recorded(ok, _, at) => if ok == succeeded then at else LastTime(history[..|history| - 1], succeeded)
  }

  lemma {:induction false} RecoveryForgetsFailures(history: seq<Event>)
    ensures FailuresSinceRecovery(history) <= CountSinceReset(history, false)
  {
    if history != [] {
      RecoveryForgetsFailures(history[..|history| - 1]);
    }
  }

  // ---------------------------------------------------------------- invariant of every reachable state

  /** The counters mean what the history says, and Closed is exactly "below the threshold". */
  ghost predicate Inv(s: System) {
    && s.breaker.maxFailures >= 1
    && (s.breaker.state == Closed <==> s.breaker.failureCount < s.breaker.maxFailures)
    && s.breaker.failureCount == FailuresSinceRecovery(s.history)
    && s.breaker.successCount == CountSinceReset(s.history, true)
    && s.breaker.requestCount == CountSinceReset(s.history, true) + CountSinceReset(s.history, false)
    && s.breaker.lastFailureTime == LastTime(s.history, false) && s.breaker.lastSuccessTime == LastTime(s.history, true)
  }

  lemma StepKeepsInv(s: System, step: Step)
    requires Inv(s) && Enabled(s, step)
    ensures Inv(Next(s, step))
  {
    var t := Next(s, step);
    if t.history != s.history {
      assert t.history[..|t.history| - 1] == s.history;
    }
  }

  lemma {:induction false} RunKeepsInv(s: System, steps: seq<Step>, t: System)
    requires Inv(s) && RunsTo(s, steps, t)
    ensures Inv(t)
    decreases |steps|
  {
    if steps != [] {
      StepKeepsInv(s, steps[0]);
      RunKeepsInv(Next(s, steps[0]), steps[1..], t);
    }
  }

  /** For every interleaving: Closed exactly below the threshold, successes plus counted failures never
      exceed the requests, and the times are those of the last failure and the last success. */
  lemma ReachableBreaker(maxFailures: int, resetTimeout: int, now: int, steps: seq<Step>, t: System)
    requires maxFailures >= 1
    requires RunsTo(Start(maxFailures, resetTimeout, now), steps, t)
    ensures t.breaker.state == Closed <==> t.breaker.failureCount < t.breaker.maxFailures
    ensures t.breaker.failureCount == FailuresSinceRecovery(t.history)
    ensures t.breaker.successCount + t.breaker.failureCount <= t.breaker.requestCount
    ensures t.breaker.requestCount == CountSinceReset(t.history, true) + CountSinceReset(t.history, false)
    ensures t.breaker.lastFailureTime == LastTime(t.history, false) && t.breaker.lastSuccessTime == LastTime(t.history, true)
  {
    RunKeepsInv(Start(maxFailures, resetTimeout, now), steps, t);
    RecoveryForgetsFailures(t.history);
  }

  /** In no run, outside `Reset`, is any edge taken but these four, each by the step that owns
      it: opening by the failure that reaches the threshold, half-opening by a timed-out upgrade,
      re-opening by a failure, closing by a success. */
  lemma OnlyTheFourEdges(maxFailures: int, resetTimeout: int, now: int, steps: seq<Step>, s: System, step: Step)
    requires maxFailures >= 1
    requires RunsTo(Start(maxFailures, resetTimeout, now), steps, s)
    requires Enabled(s, step) && step != ResetAll
    ensures var from, to := s.breaker.state, Next(s, step).breaker.state;
            || from == to
            || (from == Closed && to == Open && step.Finish? && !step.succeeded
                && FailuresSinceRecovery(s.history) + 1 == s.breaker.maxFailures)
            || (from == Open && to == HalfOpen && step.Lock?
                && s.now - s.breaker.lastFailureTime > s.breaker.resetTimeout)
            || (from == HalfOpen && to == Open && step.Finish? && !step.succeeded)
            || (from == HalfOpen && to == Closed && step.Finish? && step.succeeded)
  {
    RunKeepsInv(Start(maxFailures, resetTimeout, now), steps, s);
  }

  /** An open breaker stays open until its timeout has passed: no interleaving of late results,
      stale readers and waiting upgraders ends the cool-down early. */
  lemma {:induction false} OpenHoldsForTheTimeout(s: System, steps: seq<Step>, t: System)
    requires s.breaker.state == Open && s.breaker.lastFailureTime <= s.now
    requires RunsTo(s, steps, t)
    requires ResetAll !in steps
    requires t.now - s.breaker.lastFailureTime <= s.breaker.resetTimeout
    ensures t.breaker.state == Open
    ensures s.breaker.lastFailureTime <= t.breaker.lastFailureTime
    decreases |steps|
  {
    if steps != [] {
      var next := Next(s, steps[0]);
      ClockOnlyAdvances(next, steps[1..], t);
      if next.breaker.lastFailureTime != s.breaker.lastFailureTime {
        assert next.breaker.lastFailureTime == s.now;
      }
      OpenHoldsForTheTimeout(next, steps[1..], t);
    }
  }

  lemma {:induction false} ClockOnlyAdvances(s: System, steps: seq<Step>, t: System)
    requires RunsTo(s, steps, t)
    ensures s.now <= t.now && s.breaker.resetTimeout == t.breaker.resetTimeout
    decreases |steps|
  {
    if steps != [] {
      ClockOnlyAdvances(Next(s, steps[0]), steps[1..], t);
    }
  }

  /** The double check does not protect the caller itself: the upgrade path admits a caller even
      when the breaker has meanwhile been re-opened by another probe, inside its timeout. */
  lemma UpgraderMayEnterAnOpenBreaker()
    ensures exists steps, t ::
      && RunsTo(Start(1, 10, 100), steps, t)
      && t.breaker.state == Open
      && t.now - t.breaker.lastFailureTime <= t.breaker.resetTimeout
      && CallerOf(t, 1) == Admitted
  {
    // Caller 0 opens the breaker; after the timeout callers 0 and 1 both decide to upgrade;
    // caller 0 probes and fails; caller 1 then takes the lock.
    var first, s := TwoUpgraders();
    var s1 := Next(Next(s, Lock(0)), Finish(0, false));
    RunThree(s, Lock(0), Finish(0, false), Lock(1));
    RunsCompose(Start(1, 10, 100), first, s, [Lock(0), Finish(0, false), Lock(1)], Next(s1, Lock(1)));
  }

  lemma TwoUpgraders() returns (steps: seq<Step>, s: System)
    ensures RunsTo(Start(1, 10, 100), steps, s)
    ensures s.breaker == Next(Next(Next(Start(1, 10, 100), Read(0)), DecideStep(0)), Finish(0, false)).breaker
    ensures s.now == 111 && CallerOf(s, 0) == Upgrading && CallerOf(s, 1) == Upgrading
  {
    var s0 := Start(1, 10, 100);
    var s1 := Next(Next(Next(s0, Read(0)), DecideStep(0)), Finish(0, false));
    var s2 := Next(Next(Next(s1, Tick(11)), Read(0)), Read(1));
    s := Next(Next(s2, DecideStep(0)), DecideStep(1));
    var part1, part2, part3 := [Read(0), DecideStep(0), Finish(0, false)], [Tick(11), Read(0), Read(1)], [DecideStep(0), DecideStep(1)];
    RunThree(s0, Read(0), DecideStep(0), Finish(0, false));
    RunThree(s1, Tick(11), Read(0), Read(1));
    RunTwo(s2, DecideStep(0), DecideStep(1));
    RunsCompose(s1, part2, s2, part3, s);
    RunsCompose(s0, part1, s1, part2 + part3, s);
    steps := part1 + (part2 + part3);
  }

  lemma RunTwo(s: System, a: Step, b: Step)
    requires Enabled(s, a) && Enabled(Next(s, a), b)
    ensures RunsTo(s, [a, b], Next(Next(s, a), b))
  {
    assert [a, b][1..] == [b] && [b][1..] == [];
  }

  lemma RunThree(s: System, a: Step, b: Step, c: Step)
    requires Enabled(s, a) && Enabled(Next(s, a), b) && Enabled(Next(Next(s, a), b), c)
    ensures RunsTo(s, [a, b, c], Next(Next(Next(s, a), b), c))
  {
    RunTwo(Next(s, a), b, c);
    assert [a, b, c][1..] == [b, c];
  }

  lemma {:induction false} RunsCompose(s: System, first: seq<Step>, mid: System, second: seq<Step>, t: System)
    requires RunsTo(s, first, mid) && RunsTo(mid, second, t)
    ensures RunsTo(s, first + second, t)
    decreases |first|
  {
    if first == [] {
      assert first + second == second;
    } else {
      RunsCompose(Next(s, first[0]), first[1..], mid, second, t);
      assert (first + second)[1..] == first[1..] + second;
    }
  }

  /** So does the unlocked decision: a caller that read Closed is admitted although the breaker has
      been opened since. */
  lemma StaleReaderMayEnterAnOpenBreaker()
    ensures exists steps, t ::
      && RunsTo(Start(1, 10, 100), steps, t)
      && EntersOpen(t, DecideStep(1), 1)
  {
    var s0 := Start(1, 10, 100);
    var s1 := Next(Next(s0, Read(0)), Read(1));
    var s2 := Next(Next(s1, DecideStep(0)), Finish(0, false));
    RunTwo(s0, Read(0), Read(1));
    RunTwo(s1, DecideStep(0), Finish(0, false));
    RunsCompose(s0, [Read(0), Read(1)], s1, [DecideStep(0), Finish(0, false)], s2);
  }

  ghost predicate OpenWithinTimeout(s: System) {
    s.breaker.state == Open && s.now - s.breaker.lastFailureTime <= s.breaker.resetTimeout
  }

  /** The step admits the caller into a breaker that is open within its timeout. */
  ghost predicate EntersOpen(s: System, step: Step, c: nat) {
    && Enabled(s, step) && CallerOf(s, c) != Admitted
    && CallerOf(Next(s, step), c) == Admitted && OpenWithinTimeout(Next(s, step))
  }

  /** Of all steps, these two and no others admit a caller into an open breaker inside its timeout:
      the lock of a caller whose re-check fails, and the decision of one that did not read Open. */
  lemma EntersOpenExactlyWhen(s: System, step: Step, c: nat)
    requires Enabled(s, step) && CallerOf(s, c) != Admitted
    ensures EntersOpen(s, step, c) <==>
            OpenWithinTimeout(s) && (step == Lock(c) || (step == DecideStep(c) && CallerOf(s, c).state != Open))
  {
    if step == DecideStep(c) {
      assert Next(s, step).breaker == s.breaker && Next(s, step).now == s.now;
    }
  }

  /** What a caller knows while no failure is recorded: an open breaker is the one it read, and it
      only waits for the lock once that one's timeout was over. */
  ghost predicate Undisturbed(read: System, s: System, c: nat) {
    && s.breaker.resetTimeout == read.breaker.resetTimeout
    && (s.breaker.state == Open ==> read.breaker.state == Open && s.breaker.lastFailureTime == read.breaker.lastFailureTime)
    && match CallerOf(s, c)
       case Seen(state, last) => state == read.breaker.state && last == read.breaker.lastFailureTime
       case Upgrading => s.now - read.breaker.lastFailureTime > read.breaker.resetTimeout
       case _ => true
  }

  lemma {:induction false} QuietRunLeavesUndisturbed(read: System, s: System, steps: seq<Step>, t: System, c: nat)
    requires Undisturbed(read, s, c) && RunsTo(s, steps, t)
    requires Read(c) !in steps && forall d: nat :: Finish(d, false) !in steps
    ensures Undisturbed(read, t, c)
    decreases |steps|
  {
    if steps != [] {
      assert steps[0] in steps;
      QuietRunLeavesUndisturbed(read, Next(s, steps[0]), steps[1..], t, c);
    }
  }

  /** Over every run: a caller enters an open breaker inside its timeout only if some failure was
      recorded between its read and its admission. */
  lemma EnteringOpenNeedsALateFailure(read: System, steps: seq<Step>, s: System, step: Step, c: nat)
    requires Enabled(read, Read(c)) && RunsTo(Next(read, Read(c)), steps, s)
    requires Read(c) !in steps && EntersOpen(s, step, c)
    ensures exists d: nat :: Finish(d, false) in steps
  {
    EntersOpenExactlyWhen(s, step, c);
    if forall d: nat :: Finish(d, false) !in steps {
      QuietRunLeavesUndisturbed(read, Next(read, Read(c)), steps, s, c);
    }
  }
}

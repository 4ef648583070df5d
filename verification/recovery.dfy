/** Persisted retry budgets (internal/sync/recovery.go, errors.go): `ExecuteWithRetry` for one
    source and object, behind the breaker that it shares with every other object. */
module Recovery {
  import opened Wrappers
  import opened CircuitBreakers
  import opened RetryExecutors
  import opened SyncBreakers

  // ---------------------------------------------------------------- one call

  /** What the world does to one try.  `clockPast` is `CanRetry`'s time condition; `before`, `gaps`
      and `during` are what other objects do to the shared breaker before the try, inside its
      check, and while its operation runs. */
  datatype Try = Try(clockPast: bool, cancelled: bool, readTime: int, lockTime: int, recordTime: int,
                     outcome: Outcome, saveLands: bool, deleteLands: bool,
                     before: seq<GuardStep>, gaps: Gaps, during: seq<GuardStep>)

  datatype CallWorld = CallWorld(loadFails: bool, tries: int -> Try)

  datatype CallEnd = Succeeded | Skipped | BudgetSpent | GaveUp | WaitCancelled

  /** The recovery ledger of one source/object: the saved attempt count, the shared breaker, and -
      for the proof - how often the operation ran since its last success, the highest that count
      ever was, and how many attempts were never saved. */
  datatype Ledger = Ledger(saved: Option<nat>, guard: GuardFields, runs: nat, peak: nat, unsaved: nat)

  function NewLedger(guard: GuardFields): Ledger {
    Ledger(None, guard, 0, 0, 0)
  }

  function Attempts(saved: Option<nat>): nat {
    if saved.None? then 0 else saved.value
  }

  datatype Config = Config(maxRetries: int, skipFailedObjects: bool)

  function Budget(config: Config): nat {
    if config.maxRetries > 0 then config.maxRetries else 0
  }

  datatype TryEnd = Won | Final | Again

  /** The operation runs once more. */
  function Ran(l: Ledger): Ledger {
    l.(runs := l.runs + 1, peak := if l.runs + 1 > l.peak then l.runs + 1 else l.peak)
  }

  /** The breaker when the try's check is done, and whether the try was admitted. */
  function Checked(l: Ledger, t: Try): (GuardFields, bool) {
    GuardCheck(GuardRun(l.guard, t.before), t.readTime, t.lockTime, t.gaps)
  }

  /** One try, counted as attempt number `attempts`: a rejection by the breaker counts and is saved
      like a failure. */
  function OneTry(l: Ledger, attempts: nat, t: Try): (Ledger, TryEnd) {
    var (checked, admitted) := Checked(l, t);
    if !admitted then (Saving(l.(guard := checked), attempts, t), Again)
    else
      var ran := Ran(l).(guard := GuardRecord(GuardRun(checked, t.during), t.outcome.Succeeds?, t.recordTime));
      if t.outcome.Succeeds? then (ran.(saved := if t.deleteLands then None else l.saved, runs := 0, unsaved := 0), Won)
      else if !t.outcome.retryable then (ran, Final)
      else (Saving(ran, attempts, t), Again)
  }

  /** The retry loop from the try with this number on; `attempts` is the in-memory count and
      `unsaved` what was lost before the loop began. */
  function LoopFrom(l: Ledger, attempts: nat, i: nat, config: Config, tries: int -> Try): (Ledger, CallEnd)
    decreases config.maxRetries - attempts
  {
    if attempts >= config.maxRetries || !tries(i).clockPast then (Settled(l, attempts), GaveUp)
    else if attempts > 0 && tries(i).cancelled then (Settled(l, attempts), WaitCancelled)
    else
      var (after, end) := OneTry(l, attempts + 1, tries(i));
      match end
      case Won => (after, Succeeded)
      case Final => (Settled(after, attempts + 1), GaveUp)
      case Again => LoopFrom(after, attempts + 1, i + 1, config, tries)
  }

  function Saving(l: Ledger, attempts: nat, t: Try): Ledger {
    if t.saveLands then l.(saved := Some(attempts)) else l
  }

  /** The in-memory count is gone after the call: what was not saved is written off. */
  function Settled(l: Ledger, attempts: nat): Ledger {
    l.(unsaved := l.unsaved + (if attempts > Attempts(l.saved) then attempts - Attempts(l.saved) else 0))
  }

  /** A load that fails starts counting again from zero. */
  function LoadedAttempts(l: Ledger, w: CallWorld): nat {
    if w.loadFails then 0 else Attempts(l.saved)
  }

  function Opened(l: Ledger, w: CallWorld): Ledger {
    if w.loadFails then l.(unsaved := l.unsaved + Attempts(l.saved)) else l
  }

  function Call(l: Ledger, config: Config, w: CallWorld): (Ledger, CallEnd) {
    var attempts := LoadedAttempts(l, w);
    if attempts >= config.maxRetries || !w.tries(0).clockPast then
      (Opened(l, w), if config.skipFailedObjects then Skipped else BudgetSpent)
    else LoopFrom(Opened(l, w), attempts, 0, config, w.tries)
  }

  class RecoveryManager {
    const config: Config
    const circuitBreaker: SyncBreaker
    /** The stored recovery state of the object, as far as it counts attempts. */
    var saved: Option<nat>
    ghost var runs: nat
    ghost var peak: nat
    ghost var unsaved: nat

    ghost function View(): Ledger
      reads this, circuitBreaker
    {
      Ledger(saved, circuitBreaker.View(), runs, peak, unsaved)
    }

    constructor (config: Config, threshold: int, timeout: int)
      ensures View() == NewLedger(NewGuard(threshold, timeout))
      ensures this.config == config && fresh(circuitBreaker)
    {
      this.config := config;
      circuitBreaker := new SyncBreaker(threshold, timeout);
      saved, runs, peak, unsaved := None, 0, 0, 0;
    }

    method TryOnce(attempts: nat, t: Try) returns (end: TryEnd)
      modifies this, circuitBreaker
      ensures (View(), end) == OneTry(old(View()), attempts, t)
      ensures end.Won? ==>
                t.outcome.Succeeds? && saved == (if t.deleteLands then None else old(saved)) && runs == 0 && unsaved == 0
      ensures end.Won? ==> circuitBreaker.failures == 0 && circuitBreaker.state != HalfOpen
      ensures !end.Won? && runs == old(runs) + 1 ==> circuitBreaker.lastFailureTime == t.recordTime
      ensures end.Final? ==> t.outcome == Fails(false) && saved == old(saved) && runs == old(runs) + 1
      ensures end.Again? ==>
                && saved == (if t.saveLands then Some(attempts) else old(saved))
                && (runs == old(runs) || (runs == old(runs) + 1 && t.outcome == Fails(true)))
    {
      circuitBreaker.OthersRun(t.before);
      var admitted := circuitBreaker.CanExecute(t.readTime, t.lockTime, t.gaps);
      if admitted {
        runs := runs + 1;
        peak := if runs > peak then runs else peak;
        circuitBreaker.OthersRun(t.during);
        if t.outcome.Succeeds? {
          circuitBreaker.RecordSuccess(t.recordTime);
          if t.deleteLands {
            saved := None;
          }
          runs, unsaved := 0, 0;
          return Won;
        }
        circuitBreaker.RecordFailure(t.recordTime);
        if !t.outcome.retryable {
          return Final;
        }
      }
      if t.saveLands {
        saved := Some(attempts);
      }
      end := Again;
    }

    /** The retry loop, from `attempts` counted so far; its measure is MaxRetries - Attempts. */
    method RetryLoop(loaded: nat, tries: int -> Try) returns (end: CallEnd)
      modifies this, circuitBreaker
      ensures (View(), end) == LoopFrom(old(View()), loaded, 0, config, tries)
    {
      ghost var target := LoopFrom(View(), loaded, 0, config, tries);
      var attempts, i := loaded, 0;
      end := GaveUp;
      while attempts < config.maxRetries && tries(i).clockPast
        invariant 0 <= i && end == GaveUp && LoopFrom(View(), attempts, i, config, tries) == target
        decreases config.maxRetries - attempts
      {
        if attempts > 0 && tries(i).cancelled {
          end := WaitCancelled;
          break;
        }
        attempts := attempts + 1;
        var step := TryOnce(attempts, tries(i));
        if step.Won? {
          return Succeeded;
        }
        if step.Final? {
          break;
        }
        i := i + 1;
      }
      unsaved := unsaved + (if attempts > Attempts(saved) then attempts - Attempts(saved) else 0);
    }

    method ExecuteWithRetry(w: CallWorld) returns (end: CallEnd)
      modifies this, circuitBreaker
      ensures (View(), end) == Call(old(View()), config, w)
      // Refused without a try exactly when the loaded count has reached the budget, or it is too early.
      ensures end in {Skipped, BudgetSpent} <==>
                (if w.loadFails || old(saved).None? then 0 else old(saved).value) >= config.maxRetries || !w.tries(0).clockPast
      ensures end in {Skipped, BudgetSpent} ==> (end == Skipped <==> config.skipFailedObjects)
      ensures end in {Skipped, BudgetSpent} ==> saved == old(saved) && runs == old(runs)
      // A success whose delete lands leaves no attempts behind.
      ensures end == Succeeded && (forall k: nat :: w.tries(k).deleteLands) ==> saved == None && runs == 0 && unsaved == 0
    {
      var attempts := if w.loadFails || saved.None? then 0 else saved.value;
      if w.loadFails {
        unsaved := unsaved + (if saved.None? then 0 else saved.value);
      }
      if attempts >= config.maxRetries || !w.tries(0).clockPast {
        return if config.skipFailedObjects then Skipped else BudgetSpent;
      }
      ghost var before := View();
      end := RetryLoop(attempts, w.tries);
      SucceedsExactlyWhen(before, attempts, 0, config, w.tries);
      StopsOnlyFor(before, attempts, 0, config, w.tries);
    }
  }

  // ---------------------------------------------------------------- how a call goes

  /** The ledger before try `k` of the loop. */
  function LedgerAt(l: Ledger, attempts: nat, i: nat, config: Config, tries: int -> Try, k: nat): Ledger
    decreases k - i
  {
    if k <= i then l else LedgerAt(OneTry(l, attempts + 1, tries(i)).0, attempts + 1, i + 1, config, tries, k)
  }

  /** The breaker admitted try `k`, so that its operation ran. */
  predicate RanAt(l: Ledger, attempts: nat, i: nat, config: Config, tries: int -> Try, k: nat) {
    Checked(LedgerAt(l, attempts, i, config, tries, k), tries(k)).1
  }

  lemma RanLater(l: Ledger, attempts: nat, i: nat, config: Config, tries: int -> Try, k: nat)
    requires i < k
    ensures RanAt(l, attempts, i, config, tries, k) ==
            RanAt(OneTry(l, attempts + 1, tries(i)).0, attempts + 1, i + 1, config, tries, k)
  {
  }

  predicate MakesATry(attempts: nat, i: nat, config: Config, tries: int -> Try) {
    attempts < config.maxRetries && tries(i).clockPast && !(attempts > 0 && tries(i).cancelled)
  }

  /** Every try but the last was rejected or failed with a retryable error. */
  lemma {:induction false} EarlierTriesFailed(l: Ledger, attempts: nat, i: nat, config: Config, tries: int -> Try, k: nat)
    requires i <= k < TriesMade(l, attempts, i, config, tries) - 1
    ensures RanAt(l, attempts, i, config, tries, k) ==> tries(k).outcome == Fails(true)
    decreases k - i
  {
    if i < k {
      RanLater(l, attempts, i, config, tries, k);
      EarlierTriesFailed(OneTry(l, attempts + 1, tries(i)).0, attempts + 1, i + 1, config, tries, k);
    }
  }

  /** A loop succeeds exactly when its last try ran and succeeded; that one clears the saved count if its
      delete lands. */
  lemma {:induction false} SucceedsExactlyWhen(l: Ledger, attempts: nat, i: nat, config: Config, tries: int -> Try)
    ensures var n := TriesMade(l, attempts, i, config, tries);
            var (after, end) := LoopFrom(l, attempts, i, config, tries);
            && (end == Succeeded <==> n > i && RanAt(l, attempts, i, config, tries, n - 1) && tries(n - 1).outcome.Succeeds?)
            && (end == Succeeded ==> after.runs == 0 && after.unsaved == 0 && (tries(n - 1).deleteLands ==> after.saved == None))
    decreases config.maxRetries - attempts
  {
    if MakesATry(attempts, i, config, tries) {
      var (after, end) := OneTry(l, attempts + 1, tries(i));
      if end.Again? {
        SucceedsExactlyWhen(after, attempts + 1, i + 1, config, tries);
        var n := TriesMade(after, attempts + 1, i + 1, config, tries);
        if n > i + 1 {
          RanLater(l, attempts, i, config, tries, n - 1);
        }
      }
    }
  }

  /** A loop that does not succeed was ended by a final error of its last try, by the budget, by the
      clock, or by a cancelled wait. */
  lemma {:induction false} StopsOnlyFor(l: Ledger, attempts: nat, i: nat, config: Config, tries: int -> Try)
    ensures var n := TriesMade(l, attempts, i, config, tries);
            match LoopFrom(l, attempts, i, config, tries).1
            case Succeeded => true
            case GaveUp =>
              || (n > i && RanAt(l, attempts, i, config, tries, n - 1) && tries(n - 1).outcome == Fails(false))
              || attempts + (n - i) >= config.maxRetries || !tries(n).clockPast
            case WaitCancelled => 0 < attempts + (n - i) < config.maxRetries && tries(n).cancelled
            case _ => false
    decreases config.maxRetries - attempts
  {
    if MakesATry(attempts, i, config, tries) {
      var (after, end) := OneTry(l, attempts + 1, tries(i));
      if end.Again? {
        StopsOnlyFor(after, attempts + 1, i + 1, config, tries);
        var n := TriesMade(after, attempts + 1, i + 1, config, tries);
        if n > i + 1 {
          RanLater(l, attempts, i, config, tries, n - 1);
        }
      }
    }
  }

  /** Every try may be made, and fails with a retryable error if it runs. */
  ghost predicate AlwaysFails(w: CallWorld) {
    forall k :: w.tries(k).clockPast && !w.tries(k).cancelled && w.tries(k).outcome == Fails(true)
  }

  lemma {:induction false} FailingLoop(l: Ledger, attempts: nat, i: nat, config: Config, w: CallWorld)
    requires AlwaysFails(w) && (forall k :: w.tries(k).saveLands) && attempts <= config.maxRetries
    ensures TriesMade(l, attempts, i, config, w.tries) == i + config.maxRetries - attempts
    ensures var (after, end) := LoopFrom(l, attempts, i, config, w.tries);
            end == GaveUp && (attempts < config.maxRetries ==> after.saved == Some(config.maxRetries))
    decreases config.maxRetries - attempts
  {
    if attempts < config.maxRetries {
      assert w.tries(i).clockPast && !w.tries(i).cancelled && w.tries(i).outcome == Fails(true) && w.tries(i).saveLands;
      FailingLoop(OneTry(l, attempts + 1, w.tries(i)).0, attempts + 1, i + 1, config, w);
    }
  }

  /** The breaker admits every try of the loop, up to the budget. */
  predicate AllRun(l: Ledger, attempts: nat, i: nat, config: Config, w: CallWorld)
    decreases config.maxRetries - attempts
  {
    attempts < config.maxRetries ==>
      Checked(l, w.tries(i)).1 && AllRun(OneTry(l, attempts + 1, w.tries(i)).0, attempts + 1, i + 1, config, w)
  }

  lemma {:induction false} FailingRuns(l: Ledger, attempts: nat, i: nat, config: Config, w: CallWorld)
    requires AlwaysFails(w) && attempts <= config.maxRetries && AllRun(l, attempts, i, config, w)
    ensures LoopFrom(l, attempts, i, config, w.tries).0.runs == l.runs + config.maxRetries - attempts
    decreases config.maxRetries - attempts
  {
    if attempts < config.maxRetries {
      assert w.tries(i).clockPast && !w.tries(i).cancelled && w.tries(i).outcome == Fails(true);
      var after := OneTry(l, attempts + 1, w.tries(i)).0;
      FailingRuns(after, attempts + 1, i + 1, config, w);
    }
  }

  /** After a success whose deletes land, the next call has the whole budget again: if it keeps
      failing it makes exactly MaxRetries tries, runs the operation as often if the breaker admits
      them all, and leaves a count with which every later call is refused. */
  lemma ASuccessRestoresTheBudget(l: Ledger, config: Config, w: CallWorld, next: CallWorld, later: CallWorld)
    requires Call(l, config, w).1 == Succeeded && forall k: nat :: w.tries(k).deleteLands
    requires Clean(next) && AlwaysFails(next) && !later.loadFails
    ensures var after := Call(l, config, w).0;
            var (spent, end) := Call(after, config, next);
            && TriesOfCall(after, config, next) == config.maxRetries && end == GaveUp && spent.saved == Some(config.maxRetries)
            && (AllRun(after, 0, 0, config, next) ==> spent.runs == config.maxRetries)
            && Call(spent, config, later) == (spent, if config.skipFailedObjects then Skipped else BudgetSpent)
  {
    SucceedsExactlyWhen(Opened(l, w), LoadedAttempts(l, w), 0, config, w.tries);
    var after := Call(l, config, w).0;
    FailingLoop(after, 0, 0, config, next);
    if AllRun(after, 0, 0, config, next) {
      FailingRuns(after, 0, 0, config, next);
    }
  }

  // ---------------------------------------------------------------- the budget over any calls

  /** Every run since the last success is paid for, by a saved attempt or by one written off. */
  predicate Paid(l: Ledger) {
    l.runs <= Attempts(l.saved) + l.unsaved
  }

  lemma {:induction false} LoopPaysForRuns(l: Ledger, attempts: nat, i: nat, config: Config, tries: int -> Try)
    requires l.runs <= attempts + l.unsaved
    ensures Paid(LoopFrom(l, attempts, i, config, tries).0)
    decreases config.maxRetries - attempts
  {
    if attempts < config.maxRetries && tries(i).clockPast && !(attempts > 0 && tries(i).cancelled) {
      var (after, end) := OneTry(l, attempts + 1, tries(i));
      if end.Again? {
        LoopPaysForRuns(after, attempts + 1, i + 1, config, tries);
      }
    }
  }

  lemma CallPaysForRuns(l: Ledger, config: Config, w: CallWorld)
    requires Paid(l)
    ensures Paid(Call(l, config, w).0)
  {
    var attempts := LoadedAttempts(l, w);
    if attempts < config.maxRetries && w.tries(0).clockPast {
      LoopPaysForRuns(Opened(l, w), attempts, 0, config, w.tries);
    }
  }

  function Calls(l: Ledger, config: Config, worlds: seq<CallWorld>): Ledger {
    if worlds == [] then l
    else Call(Calls(l, config, worlds[..|worlds| - 1]), config, worlds[|worlds| - 1]).0
  }

  /** Over any sequence of calls, whatever fails: the operation ran since its last success at
      most once per saved or written-off attempt. */
  lemma {:induction false} RunsArePaidFor(l: Ledger, config: Config, worlds: seq<CallWorld>)
    requires Paid(l)
    ensures Paid(Calls(l, config, worlds))
  {
    if worlds != [] {
      RunsArePaidFor(l, config, worlds[..|worlds| - 1]);
      CallPaysForRuns(Calls(l, config, worlds[..|worlds| - 1]), config, worlds[|worlds| - 1]);
    }
  }

  // ---------------------------------------------------------------- the budget over clean calls

  /** Loads and saves succeed and errors are retryable.  Deletes may fail. */
  ghost predicate Clean(w: CallWorld) {
    !w.loadFails && forall i :: w.tries(i).saveLands && w.tries(i).outcome != Fails(false)
  }

  ghost predicate AllClean(worlds: seq<CallWorld>) {
    forall i :: 0 <= i < |worlds| ==> Clean(worlds[i])
  }

  /** There is budget left, but less than the saved count says: the operation ran more often since
      its last success than the count knows. */
  predicate Overdrawn(l: Ledger, config: Config) {
    Attempts(l.saved) < config.maxRetries && l.runs > Attempts(l.saved)
  }

  lemma {:induction false} CleanLoopStaysWithin(l: Ledger, attempts: nat, i: nat, config: Config, tries: int -> Try)
    requires forall k :: tries(k).saveLands && tries(k).outcome != Fails(false)
    requires Attempts(l.saved) == attempts && l.runs <= attempts && l.peak <= Budget(config)
    ensures var after := LoopFrom(l, attempts, i, config, tries).0;
            && after.peak <= Budget(config) && after.runs <= Attempts(after.saved) && after.unsaved <= l.unsaved
            && (Attempts(after.saved) <= attempts || Attempts(after.saved) <= config.maxRetries)
    decreases config.maxRetries - attempts
  {
    if attempts < config.maxRetries && tries(i).clockPast && !(attempts > 0 && tries(i).cancelled) {
      assert tries(i).saveLands && tries(i).outcome != Fails(false);
      var (after, end) := OneTry(l, attempts + 1, tries(i));
      if end.Again? {
        CleanLoopStaysWithin(after, attempts + 1, i + 1, config, tries);
      }
    }
  }

  lemma CleanCallStaysWithin(l: Ledger, config: Config, w: CallWorld)
    requires Clean(w) && !Overdrawn(l, config) && l.peak <= Budget(config)
    ensures var after := Call(l, config, w).0;
            && !Overdrawn(after, config) && after.peak <= Budget(config) && after.unsaved <= l.unsaved
            && (Attempts(after.saved) <= Attempts(l.saved) || Attempts(after.saved) <= config.maxRetries)
  {
    if Attempts(l.saved) < config.maxRetries && w.tries(0).clockPast {
      CleanLoopStaysWithin(l, Attempts(l.saved), 0, config, w.tries);
    }
  }

  lemma {:induction false} CleanCallsStayWithin(l: Ledger, config: Config, worlds: seq<CallWorld>)
    requires AllClean(worlds) && !Overdrawn(l, config) && l.peak <= Budget(config)
    ensures var after := Calls(l, config, worlds);
            && !Overdrawn(after, config) && after.peak <= Budget(config) && after.unsaved <= l.unsaved
  {
    if worlds != [] {
      var front := worlds[..|worlds| - 1];
      assert AllClean(front);
      CleanCallsStayWithin(l, config, front);
      CleanCallStaysWithin(Calls(l, config, front), config, worlds[|worlds| - 1]);
    }
  }

  /** While loads and saves succeed and errors are retryable, the operation never runs more than
      MaxRetries times between two successes, the run that succeeds included, over all calls
      together. */
  lemma AtMostMaxRetriesBetweenSuccesses(guard: GuardFields, config: Config, worlds: seq<CallWorld>)
    requires AllClean(worlds)
    ensures Calls(NewLedger(guard), config, worlds).peak <= Budget(config)
    ensures Calls(NewLedger(guard), config, worlds).unsaved == 0
  {
    CleanCallsStayWithin(NewLedger(guard), config, worlds);
  }

  // ---------------------------------------------------------------- when the budget is exceeded

  /** All clock readings of a try, in the order in which they are taken. */
  function Readings(t: Try): (times: seq<int>)
    ensures |times| > 0 && times[|times| - 1] == t.recordTime
  {
    Times(t.before) + [t.readTime] + Times(t.gaps.beforeLock) + [t.lockTime]
    + Times(t.gaps.beforeReread) + Times(t.during) + [t.recordTime]
  }

  function Times(steps: seq<GuardStep>): seq<int> {
    seq(|steps|, i requires 0 <= i < |steps| => steps[i].now)
  }

  predicate Ascending(times: seq<int>) {
    forall i, j :: 0 <= i < j < |times| ==> times[i] <= times[j]
  }

  /** From `now` on, the call reads one clock that never goes back. */
  ghost predicate OnOneClock(now: int, w: CallWorld) {
    && now <= Readings(w.tries(0))[0]
    && forall i: nat :: Ascending(Readings(w.tries(i))) && w.tries(i).recordTime <= Readings(w.tries(i + 1))[0]
  }

  /** How many tries the loop makes, counted from try 0. */
  function TriesMade(l: Ledger, attempts: nat, i: nat, config: Config, tries: int -> Try): (made: nat)
    ensures made >= i
    decreases config.maxRetries - attempts
  {
    if attempts >= config.maxRetries || !tries(i).clockPast || (attempts > 0 && tries(i).cancelled) then i
    else
      var (after, end) := OneTry(l, attempts + 1, tries(i));
      if end.Again? then TriesMade(after, attempts + 1, i + 1, config, tries) else i + 1
  }

  function TriesOfCall(l: Ledger, config: Config, w: CallWorld): nat {
    TriesMade(Opened(l, w), LoadedAttempts(l, w), 0, config, w.tries)
  }

  /** What the clock showed last, after these calls. */
  function ClockAfter(l: Ledger, config: Config, worlds: seq<CallWorld>): int {
    if worlds == [] then l.guard.lastFailureTime
    else
      var front, last := worlds[..|worlds| - 1], worlds[|worlds| - 1];
      var made := TriesOfCall(Calls(l, config, front), config, last);
      if made == 0 then ClockAfter(l, config, front) else last.tries(made - 1).recordTime
  }

  /** The calls one after the other read one clock, which starts at the breaker's last failure. */
  ghost predicate OneClock(l: Ledger, config: Config, worlds: seq<CallWorld>) {
    worlds == []
    || (OneClock(l, config, worlds[..|worlds| - 1])
        && OnOneClock(ClockAfter(l, config, worlds[..|worlds| - 1]), worlds[|worlds| - 1]))
  }

  /** A try that always runs and fails: it comes when any earlier failure is past the timeout. */
  function Relentless(start: int, step: nat, i: int): Try {
    var now := start + (if i < 0 then 0 else i) * step;
    Try(true, false, now, now, now, Fails(true), true, true, [], NO_GAPS, [])
  }

  lemma RelentlessIsOnOneClock(start: int, step: nat)
    ensures OnOneClock(start, CallWorld(false, i => Relentless(start, step, i)))
  {
    var w := CallWorld(false, i => Relentless(start, step, i));
    forall i: nat ensures Ascending(Readings(w.tries(i))) && w.tries(i).recordTime <= Readings(w.tries(i + 1))[0] {
      assert start + (i + 1) * step == start + i * step + step;
    }
  }

  lemma {:induction false} RelentlessLoop(l: Ledger, attempts: nat, i: nat, config: Config, start: int, step: nat, tries: int -> Try)
    requires tries == (k => Relentless(start, step, k)) && step > l.guard.resetTimeout
    requires TimedOut(l.guard, tries(i).readTime) && attempts < config.maxRetries
    ensures LoopFrom(l, attempts, i, config, tries).0.peak >= l.runs + config.maxRetries - attempts
    decreases config.maxRetries - attempts
  {
    var (after, end) := OneTry(l, attempts + 1, tries(i));
    assert end.Again? && after.runs == l.runs + 1 && after.peak >= after.runs;
    if attempts + 1 < config.maxRetries {
      assert tries(i + 1).readTime == tries(i).recordTime + step by {
        assert (i + 1) * step == i * step + step;
      }
      RelentlessLoop(after, attempts + 1, i + 1, config, start, step, tries);
    }
  }

  lemma OverdrawnOverruns(l: Ledger, config: Config) returns (w: CallWorld)
    requires Overdrawn(l, config)
    ensures Clean(w) && OnOneClock(l.guard.lastFailureTime, w) && Call(l, config, w).0.peak > config.maxRetries
  {
    var step: nat := 1 + (if l.guard.resetTimeout > 0 then l.guard.resetTimeout else 0);
    var start := l.guard.lastFailureTime + step;
    w := CallWorld(false, i => Relentless(start, step, i));
    RelentlessIsOnOneClock(start, step);
    assert w.tries(0).readTime == start;
    RelentlessLoop(l, Attempts(l.saved), 0, config, start, step, w.tries);
  }

  lemma JustOneCall(l: Ledger, config: Config, w: CallWorld)
    ensures Calls(l, config, [w]) == Call(l, config, w).0
    ensures OneClock(l, config, [w]) <==> OnOneClock(l.guard.lastFailureTime, w)
  {
    var before: seq<CallWorld> := [w][..0];
    assert before == [];
    assert Calls(l, config, before) == l && OneClock(l, config, before);
  }

  /** Every clean continuation on one clock runs the operation within the budget. */
  ghost predicate StaysWithinBudget(l: Ledger, config: Config) {
    forall worlds {:trigger Calls(l, config, worlds)} ::
      AllClean(worlds) && OneClock(l, config, worlds) ==> Calls(l, config, worlds).peak <= Budget(config)
  }

  /** From any ledger and for every MaxRetries, all clean continuations stay within the budget
      exactly when it was not exceeded before and the ledger is not overdrawn. */
  lemma StaysWithinBudgetExactlyWhen(l: Ledger, config: Config)
    ensures StaysWithinBudget(l, config) <==> l.peak <= Budget(config) && !Overdrawn(l, config)
  {
    if l.peak > Budget(config) {
      assert Calls(l, config, []) == l && AllClean([]) && OneClock(l, config, []);
    } else if Overdrawn(l, config) {
      var w := OverdrawnOverruns(l, config);
      JustOneCall(l, config, w);
      assert AllClean([w]);
    } else {
      forall worlds | AllClean(worlds) ensures Calls(l, config, worlds).peak <= Budget(config) {
        CleanCallsStayWithin(l, config, worlds);
      }
    }
  }

  /** The operation ran and failed without its attempt being saved: the save was lost, or the error
      was not retryable and nothing was saved. */
  predicate RanUnsaved(l: Ledger, t: Try) {
    Checked(l, t).1 && t.outcome.Fails? && !(t.outcome.retryable && t.saveLands)
  }

  /** The attempt was saved, under a number that does not cover the runs: only a failed load, which
      restarts the count, makes it so small. */
  predicate SavedTooLow(l: Ledger, attempts: nat, t: Try) {
    && t.saveLands && (Checked(l, t).1 ==> t.outcome == Fails(true))
    && attempts < l.runs + (if Checked(l, t).1 then 1 else 0)
  }

  /** Which try makes the saved count fall behind the runs: exactly one that ran unsaved when the
      count was just covered, or one saved too low, which needs a failed load. */
  lemma CountFallsBehindExactlyWhen(l: Ledger, attempts: nat, t: Try)
    requires l.runs <= Attempts(l.saved)
    ensures var after := OneTry(l, attempts, t).0;
            after.runs > Attempts(after.saved) <==>
            (RanUnsaved(l, t) && l.runs == Attempts(l.saved)) || SavedTooLow(l, attempts, t)
    ensures attempts > Attempts(l.saved) ==> !SavedTooLow(l, attempts, t)
  {
    var (checked, admitted) := Checked(l, t);
  }

  /** The failure of this try was not saved. */
  predicate FailedUnsaved(t: Try) {
    t.outcome.Fails? && !(t.outcome.retryable && t.saveLands)
  }

  lemma {:induction false} LoopFallsBehindOnlyIf(l: Ledger, attempts: nat, i: nat, config: Config, tries: int -> Try)
    requires l.runs <= Attempts(l.saved) <= attempts
    requires var after := LoopFrom(l, attempts, i, config, tries).0; after.runs > Attempts(after.saved)
    ensures exists k :: i <= k < TriesMade(l, attempts, i, config, tries) && FailedUnsaved(tries(k))
    decreases config.maxRetries - attempts
  {
    if attempts < config.maxRetries && tries(i).clockPast && !(attempts > 0 && tries(i).cancelled) {
      CountFallsBehindExactlyWhen(l, attempts + 1, tries(i));
      var (after, end) := OneTry(l, attempts + 1, tries(i));
      if !RanUnsaved(l, tries(i)) && end.Again? {
        LoopFallsBehindOnlyIf(after, attempts + 1, i + 1, config, tries);
      } else {
        assert FailedUnsaved(tries(i));
      }
    }
  }

  /** A call after which the count is behind, though it was not before, had a failed load or made a
      try whose failure was not saved. */
  lemma CallFallsBehindOnlyIf(l: Ledger, config: Config, w: CallWorld)
    requires l.runs <= Attempts(l.saved)
    requires var after := Call(l, config, w).0; after.runs > Attempts(after.saved)
    ensures w.loadFails || exists k :: 0 <= k < TriesOfCall(l, config, w) && FailedUnsaved(w.tries(k))
  {
    if !w.loadFails {
      LoopFallsBehindOnlyIf(l, Attempts(l.saved), 0, config, w.tries);
    }
  }

  /** A call whose clock allows one try. */
  function OneTryCall(now: int, loadFails: bool, outcome: Outcome, saveLands: bool): CallWorld {
    CallWorld(loadFails, i => Try(i == 0, false, now, now, now, outcome, saveLands, true, [], NO_GAPS, []))
  }

  lemma OneTryCallIs(l: Ledger, config: Config, w: CallWorld, now: int, loadFails: bool, outcome: Outcome, saveLands: bool)
    requires w == OneTryCall(now, loadFails, outcome, saveLands) && outcome.Fails?
    requires TimedOut(l.guard, now) && LoadedAttempts(l, w) < config.maxRetries
    ensures var after := Call(l, config, w).0;
            && after.runs == l.runs + 1 && after.peak >= after.runs
            && after.guard.lastFailureTime == now && after.guard.resetTimeout == l.guard.resetTimeout
            && after.saved == if outcome.retryable && saveLands then Some(LoadedAttempts(l, w) + 1) else l.saved
    ensures TriesOfCall(l, config, w) == 1
  {
    var n := LoadedAttempts(l, w);
    var (after, end) := OneTry(Opened(l, w), n + 1, w.tries(0));
    assert after.runs == l.runs + 1;
    if end.Again? {
      assert !w.tries(1).clockPast;
      assert LoopFrom(after, n + 1, 1, config, w.tries) == (Settled(after, n + 1), GaveUp);
      assert TriesMade(after, n + 1, 1, config, w.tries) == 1;
    }
  }

  lemma OneTryIsOnOneClock(before: int, w: CallWorld, now: int, loadFails: bool, outcome: Outcome, saveLands: bool)
    requires w == OneTryCall(now, loadFails, outcome, saveLands) && before <= now
    ensures OnOneClock(before, w)
  {
    forall i: nat ensures Ascending(Readings(w.tries(i))) && w.tries(i).recordTime <= Readings(w.tries(i + 1))[0] {
      assert forall k :: 0 <= k < |Readings(w.tries(i))| ==> Readings(w.tries(i))[k] == now;
    }
  }

  /** A run whose save is lost, or whose error is final, makes the budget break for every MaxRetries. */
  lemma AnUnsavedRunOverrunsTheBudget(guard: GuardFields, now: int, config: Config, outcome: Outcome, saveLands: bool)
    requires config.maxRetries >= 1 && now >= guard.lastFailureTime && TimedOut(guard, now)
    requires outcome == Fails(false) || (outcome == Fails(true) && !saveLands)
    ensures var l, worlds := NewLedger(guard), [OneTryCall(now, false, outcome, saveLands)];
            OneClock(l, config, worlds) && !StaysWithinBudget(Calls(l, config, worlds), config)
  {
    var l, w := NewLedger(guard), OneTryCall(now, false, outcome, saveLands);
    OneTryCallIs(l, config, w, now, false, outcome, saveLands);
    OneTryIsOnOneClock(guard.lastFailureTime, w, now, false, outcome, saveLands);
    JustOneCall(l, config, w);
    StaysWithinBudgetExactlyWhen(Call(l, config, w).0, config);
  }

  /** So does, for every MaxRetries, a run after a failed load: the second of two failing runs, each
      with its save. */
  lemma AFailedLoadOverrunsTheBudget(guard: GuardFields, now: int, later: int, config: Config)
    requires config.maxRetries >= 1 && now >= guard.lastFailureTime && TimedOut(guard, now)
    requires later >= now && later - now > guard.resetTimeout
    ensures var l, worlds := NewLedger(guard), [OneTryCall(now, false, Fails(true), true), OneTryCall(later, true, Fails(true), true)];
            OneClock(l, config, worlds) && !StaysWithinBudget(Calls(l, config, worlds), config)
  {
    var l, w1, w2 := NewLedger(guard), OneTryCall(now, false, Fails(true), true), OneTryCall(later, true, Fails(true), true);
    OneTryCallIs(l, config, w1, now, false, Fails(true), true);
    OneTryIsOnOneClock(guard.lastFailureTime, w1, now, false, Fails(true), true);
    OneTryIsOnOneClock(now, w2, later, true, Fails(true), true);
    JustOneCall(l, config, w1);
    var l1 := Call(l, config, w1).0;
    OneTryCallIs(l1, config, w2, later, true, Fails(true), true);
    assert [w1, w2][..1] == [w1] && [w1][..0] == [];
    StaysWithinBudgetExactlyWhen(Call(l1, config, w2).0, config);
  }
}

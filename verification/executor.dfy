/** The bounded retry loop around a breaker (internal/retry/executor.go).  What the world does in
    each attempt - clock readings, the operation's outcome, a cancelled wait - is an input. */
module RetryExecutors {
  import opened CircuitBreakers

  /** An operation succeeds, or fails with an error the policy may or may not retry. */
  datatype Outcome = Succeeds | Fails(retryable: bool)

  datatype Attempt = Attempt(readTime: int, lockTime: int, recordTime: int, outcome: Outcome, cancelled: bool)

  /** Two observations of one clock. */
  predicate Timely(w: Attempt) {
    w.readTime <= w.lockTime
  }

  datatype Policy = Policy(maxAttempts: int, rejectionRetryable: bool)

  datatype End = Success | NonRetryable(attempt: int) | Exhausted | Cancelled

  /** What one `Execute` comes to: the breaker it leaves, the attempts that really called the
      operation, and how it ended. */
  datatype Run = Run(breaker: Fields, invoked: seq<int>, end: End)

  function RunFrom(b: Fields, attempt: int, policy: Policy, world: int -> Attempt): Run
    decreases policy.maxAttempts - attempt
  {
    if attempt > policy.maxAttempts then Run(b, [], Exhausted)
    else
      var w := world(attempt);
      var (checked, admitted) := CheckAlone(b, w.readTime, w.lockTime);
      var after := if admitted then Record(checked, w.outcome.Succeeds?, w.recordTime) else checked;
      var called := if admitted then [attempt] else [];
      if admitted && w.outcome.Succeeds? then Run(after, called, Success)
      else if !(if admitted then w.outcome.retryable else policy.rejectionRetryable) then
        Run(after, called, NonRetryable(attempt))
      else if attempt == policy.maxAttempts then Run(after, called, Exhausted)
      else if w.cancelled then Run(after, called, Cancelled)
      else
        var rest := RunFrom(after, attempt + 1, policy, world);
        rest.(invoked := called + rest.invoked)
  }

  /** `ExecuteWithRetryAndCircuitBreaker`; `calls` are the attempts that ran the operation. */
  method ExecuteWithRetryAndCircuitBreaker(policy: Policy, cb: CircuitBreaker, world: int -> Attempt)
    returns (end: End, calls: seq<int>)
    requires forall i :: Timely(world(i))
    modifies cb
    ensures Run(cb.View(), calls, end) == RunFrom(old(cb.View()), 1, policy, world)
  {
    calls := [];
    var attempt := 1;
    while attempt <= policy.maxAttempts
      invariant 1 <= attempt
      invariant var rest := RunFrom(cb.View(), attempt, policy, world);
                RunFrom(old(cb.View()), 1, policy, world) == rest.(invoked := calls + rest.invoked)
      decreases policy.maxAttempts - attempt
    {
      var w := world(attempt);
      assert Timely(w);
      var retryable := policy.rejectionRetryable;
      var admitted := cb.CanExecute(w.readTime, w.lockTime);
      if admitted {
        calls := calls + [attempt];
        cb.RecordResult(w.outcome.Succeeds?, w.recordTime);
        if w.outcome.Succeeds? {
          return Success, calls;
        }
        retryable := w.outcome.retryable;
      }
      if !retryable {
        return NonRetryable(attempt), calls;
      }
      if attempt == policy.maxAttempts {
        break;
      }
      if w.cancelled {
        return Cancelled, calls;
      }
      attempt := attempt + 1;
    }
    end := Exhausted;
  }

  /** One recorded result per call, in order, within the attempt budget, whatever happens. */
  lemma {:induction false} CallsAreRecordedOnce(b: Fields, attempt: int, policy: Policy, world: int -> Attempt)
    ensures var run := RunFrom(b, attempt, policy, world);
            && run.breaker.requestCount == b.requestCount + |run.invoked|
            && (forall i :: 0 <= i < |run.invoked| ==> attempt <= run.invoked[i] <= policy.maxAttempts)
            && (forall i, j :: 0 <= i < j < |run.invoked| ==> run.invoked[i] < run.invoked[j])
    decreases policy.maxAttempts - attempt
  {
    if attempt <= policy.maxAttempts {
      var w := world(attempt);
      var (checked, admitted) := CheckAlone(b, w.readTime, w.lockTime);
      var after := if admitted then Record(checked, w.outcome.Succeeds?, w.recordTime) else checked;
      CallsAreRecordedOnce(after, attempt + 1, policy, world);
    }
  }

  function Min(a: int, b: int): int {
    if a <= b then a else b
  }

  /** From `attempt` on, the operation always fails retryably, nobody cancels, and each check
      comes at most the reset timeout after the failure recorded before it. */
  ghost predicate KeepsFailing(b: Fields, attempt: int, policy: Policy, world: int -> Attempt) {
    && (forall i :: attempt <= i <= policy.maxAttempts ==> world(i).outcome == Fails(true) && !world(i).cancelled)
    && (forall i :: attempt <= i < policy.maxAttempts ==>
          world(i + 1).readTime - world(i).recordTime <= b.resetTimeout)
  }

  /** An operation that always fails retryably behind a closed breaker is called exactly
      min(MaxAttempts, maxFailures - failureCount) times: attempts 1, 2, ... without a gap, and
      none of them after the breaker opened. */
  lemma {:induction false} FailingCallsAreExact(b: Fields, attempt: int, policy: Policy, world: int -> Attempt)
    requires b.state == Closed && b.failureCount < b.maxFailures
    requires !policy.rejectionRetryable
    requires attempt <= policy.maxAttempts + 1
    requires KeepsFailing(b, attempt, policy, world)
    ensures var run := RunFrom(b, attempt, policy, world);
            var calls := Min(policy.maxAttempts - attempt + 1, b.maxFailures - b.failureCount);
            && |run.invoked| == calls
            && (forall i :: 0 <= i < calls ==> run.invoked[i] == attempt + i)
            && run.breaker.failureCount == b.failureCount + calls
            && (run.breaker.state == Open <==> calls == b.maxFailures - b.failureCount)
            && run.end == if policy.maxAttempts - attempt + 1 <= b.maxFailures - b.failureCount
                          then Exhausted else NonRetryable(attempt + calls)
    decreases policy.maxAttempts - attempt
  {
    if attempt <= policy.maxAttempts {
      var w := world(attempt);
      var after := Record(b, false, w.recordTime);
      if attempt < policy.maxAttempts {
        assert world(attempt + 1).readTime - w.recordTime <= b.resetTimeout;
        if after.state == Closed {
          FailingCallsAreExact(after, attempt + 1, policy, world);
        }
      }
    }
  }

  /** The budget of one `Execute`, for every policy and every closed breaker below its threshold: the
      calls are the first attempts without a gap, each finds the breaker below its threshold, and
      only the last of them can have opened it. */
  lemma AlwaysFailingOperation(b: Fields, policy: Policy, world: int -> Attempt)
    requires b.state == Closed && b.failureCount < b.maxFailures
    requires !policy.rejectionRetryable && KeepsFailing(b, 1, policy, world)
    ensures var run := RunFrom(b, 1, policy, world);
            var calls := Min(if policy.maxAttempts > 0 then policy.maxAttempts else 0, b.maxFailures - b.failureCount);
            && |run.invoked| == calls
            && (forall i :: 0 <= i < calls ==> run.invoked[i] == i + 1 && b.failureCount + i < b.maxFailures)
            && (run.breaker.state == Open <==> b.failureCount + calls == b.maxFailures)
            && (run.end == Exhausted <==> policy.maxAttempts <= b.maxFailures - b.failureCount)
  {
    if policy.maxAttempts >= 0 {
      FailingCallsAreExact(b, 1, policy, world);
    }
  }

  // ---------------------------------------------------------------- how a run ends

  /** The breaker when attempt `k` begins, the run being at `attempt`. */
  function BreakerAt(b: Fields, attempt: int, world: int -> Attempt, k: int): Fields
    decreases k - attempt
  {
    if k <= attempt then b
    else
      var w := world(attempt);
      var (checked, admitted) := CheckAlone(b, w.readTime, w.lockTime);
      BreakerAt(if admitted then Record(checked, w.outcome.Succeeds?, w.recordTime) else checked, attempt + 1, world, k)
  }

  predicate AdmittedAt(b: Fields, attempt: int, world: int -> Attempt, k: int) {
    CheckAlone(BreakerAt(b, attempt, world, k), world(k).readTime, world(k).lockTime).1
  }

  /** The attempt failed, or was rejected, with an error that the policy retries. */
  predicate RetriedAt(b: Fields, attempt: int, policy: Policy, world: int -> Attempt, k: int) {
    if AdmittedAt(b, attempt, world, k) then world(k).outcome == Fails(true) else policy.rejectionRetryable
  }

  /** Attempt `k` is the first that ends the run: those before it were retried after an uncancelled wait. */
  predicate EndsAt(b: Fields, attempt: int, policy: Policy, world: int -> Attempt, k: int) {
    && attempt <= k <= policy.maxAttempts
    && (forall j :: attempt <= j < k ==> RetriedAt(b, attempt, policy, world, j) && !world(j).cancelled)
    && (RetriedAt(b, attempt, policy, world, k) ==> k == policy.maxAttempts || world(k).cancelled)
  }

  /** Every run that makes an attempt ends at one, and that attempt says how; the operation was called
      by exactly the admitted attempts up to it. */
  lemma {:induction false} RunEndsRight(b: Fields, attempt: int, policy: Policy, world: int -> Attempt) returns (last: int)
    requires attempt <= policy.maxAttempts
    ensures EndsAt(b, attempt, policy, world, last)
    ensures var end := RunFrom(b, attempt, policy, world).end;
            end == if AdmittedAt(b, attempt, world, last) && world(last).outcome.Succeeds? then Success
                   else if !RetriedAt(b, attempt, policy, world, last) then NonRetryable(last)
                   else if last == policy.maxAttempts then Exhausted else Cancelled
    ensures forall k :: k in RunFrom(b, attempt, policy, world).invoked <==>
                        attempt <= k <= last && AdmittedAt(b, attempt, world, k)
    decreases policy.maxAttempts - attempt
  {
    var w := world(attempt);
    var (checked, admitted) := CheckAlone(b, w.readTime, w.lockTime);
    var after := if admitted then Record(checked, w.outcome.Succeeds?, w.recordTime) else checked;
    assert AdmittedAt(b, attempt, world, attempt) == admitted;
    last := attempt;
    if RetriedAt(b, attempt, policy, world, attempt) && attempt != policy.maxAttempts && !w.cancelled {
      last := RunEndsRight(after, attempt + 1, policy, world);
      forall k | attempt < k
        ensures AdmittedAt(b, attempt, world, k) == AdmittedAt(after, attempt + 1, world, k)
        ensures RetriedAt(b, attempt, policy, world, k) == RetriedAt(after, attempt + 1, policy, world, k)
      {
      }
    }
  }

  /** The run succeeds within its attempts, whatever the breaker does not have to say about it. */
  ghost predicate SucceedsInTime(attempt: int, policy: Policy, world: int -> Attempt) {
    exists k :: attempt <= k <= policy.maxAttempts && world(k).outcome.Succeeds?
                && forall j :: attempt <= j < k ==> world(j).outcome == Fails(true) && !world(j).cancelled
  }

  lemma SucceedsNowOrLater(attempt: int, policy: Policy, world: int -> Attempt)
    requires attempt <= policy.maxAttempts
    ensures SucceedsInTime(attempt, policy, world) <==>
            || world(attempt).outcome.Succeeds?
            || (world(attempt).outcome == Fails(true) && !world(attempt).cancelled && SucceedsInTime(attempt + 1, policy, world))
  {
    if SucceedsInTime(attempt + 1, policy, world) && world(attempt).outcome == Fails(true) && !world(attempt).cancelled {
      var k :| attempt + 1 <= k <= policy.maxAttempts && world(k).outcome.Succeeds?
               && forall j :: attempt + 1 <= j < k ==> world(j).outcome == Fails(true) && !world(j).cancelled;
      assert forall j :: attempt <= j < k ==> world(j).outcome == Fails(true) && !world(j).cancelled;
    }
    if SucceedsInTime(attempt, policy, world) && !world(attempt).outcome.Succeeds? {
      var k :| attempt <= k <= policy.maxAttempts && world(k).outcome.Succeeds?
               && forall j :: attempt <= j < k ==> world(j).outcome == Fails(true) && !world(j).cancelled;
      assert k != attempt;
      assert SucceedsInTime(attempt + 1, policy, world);
    }
  }

  /** While fewer failures than its threshold can occur, a closed breaker never matters: the run
      succeeds exactly when one attempt does after retryable failures only. */
  lemma {:induction false} RoomyBreakerNeverMatters(b: Fields, attempt: int, policy: Policy, world: int -> Attempt)
    requires b.state == Closed && b.failureCount + policy.maxAttempts - attempt < b.maxFailures
    ensures RunFrom(b, attempt, policy, world).end == Success <==> SucceedsInTime(attempt, policy, world)
    decreases policy.maxAttempts - attempt
  {
    if attempt <= policy.maxAttempts {
      var w := world(attempt);
      SucceedsNowOrLater(attempt, policy, world);
      if w.outcome == Fails(true) && attempt != policy.maxAttempts {
        RoomyBreakerNeverMatters(Record(b, false, w.recordTime), attempt + 1, policy, world);
      }
    }
  }
}

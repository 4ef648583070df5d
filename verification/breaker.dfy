/** The circuit breaker (internal/retry/circuit_breaker.go).  Its three critical sections are pure
    functions of the locked fields; the class runs them, and the step machine below interleaves
    any number of callers between them. */
module CircuitBreakers {
  datatype State = Closed | Open | HalfOpen

  datatype Fields = Fields(
    maxFailures: int, resetTimeout: int, state: State,
    failureCount: int, requestCount: int, successCount: int,
    lastFailureTime: int, lastSuccessTime: int)

  const ZERO_TIME := 0

  function Fresh(maxFailures: int, resetTimeout: int): Fields {
    Fields(maxFailures, resetTimeout, Closed, 0, 0, 0, ZERO_TIME, ZERO_TIME)
  }

  /** The write-locked double check of `canExecute`. */
  function Upgrade(b: Fields, now: int): Fields {
    if b.state == Open && now - b.lastFailureTime > b.resetTimeout then b.(state := HalfOpen) else b
  }

  /** `recordResult`. */
  function Record(b: Fields, succeeded: bool, now: int): Fields {
    var counted := b.(requestCount := b.requestCount + 1);
    if succeeded then
      var good := counted.(successCount := b.successCount + 1, lastSuccessTime := now);
      if b.state == HalfOpen then good.(failureCount := 0, state := Closed) else good
    else
      var bad := counted.(failureCount := b.failureCount + 1, lastFailureTime := now);
      if b.state == HalfOpen || (b.state == Closed && bad.failureCount >= b.maxFailures)
      then bad.(state := Open) else bad
  }

  function Cleared(b: Fields): Fields {
    Fresh(b.maxFailures, b.resetTimeout)
  }

  /** What the unlocked part of `canExecute` decides from the fields it read. */
  datatype Verdict = Admit | TryUpgrade | Refuse

  function Decide(state: State, lastFailureTime: int, resetTimeout: int, now: int): Verdict {
    match state
    case Closed => Admit
    case HalfOpen => Admit
    case Open => if now - lastFailureTime > resetTimeout then TryUpgrade else Refuse
  }

  /** `canExecute` of a caller that nobody interleaves with. */
  function CheckAlone(b: Fields, readTime: int, lockTime: int): (Fields, bool) {
    match Decide(b.state, b.lastFailureTime, b.resetTimeout, readTime)
    case Admit => (b, true)
    case Refuse => (b, false)
    case TryUpgrade => (Upgrade(b, lockTime), true)
  }

  class CircuitBreaker {
    const name: string
    const maxFailures: int
    const resetTimeout: int
    var state: State
    var failureCount: int
    var requestCount: int
    var successCount: int
    var lastFailureTime: int
    var lastSuccessTime: int

    ghost function View(): Fields
      reads this
    {
      Fields(maxFailures, resetTimeout, state, failureCount, requestCount, successCount, lastFailureTime, lastSuccessTime)
    }

    constructor (name: string, maxFailures: int, resetTimeout: int)
      ensures View() == Fresh(maxFailures, resetTimeout) && this.name == name
    {
      this.name := name;
      this.maxFailures := maxFailures;
      this.resetTimeout := resetTimeout;
      state := Closed;
      failureCount, requestCount, successCount := 0, 0, 0;
      lastFailureTime, lastSuccessTime := ZERO_TIME, ZERO_TIME;
    }

    /** With no interleaved caller: admitted exactly when not open within the timeout, and then
        the breaker is no longer open. */
    method CanExecute(readTime: int, lockTime: int) returns (admitted: bool)
      requires readTime <= lockTime
      modifies this
      ensures (View(), admitted) == CheckAlone(old(View()), readTime, lockTime)
      ensures admitted <==> old(state) != Open || readTime - old(lastFailureTime) > resetTimeout
      ensures admitted ==> state != Open
    {
      match state
      case Closed =>
        admitted := true;
      case HalfOpen =>
        admitted := true;
      case Open =>
        if readTime - lastFailureTime > resetTimeout {
          if state == Open && lockTime - lastFailureTime > resetTimeout {
            state := HalfOpen;
          }
          admitted := true;
        } else {
          admitted := false;
        }
    }

    method RecordResult(succeeded: bool, now: int)
      modifies this
      ensures View() == Record(old(View()), succeeded, now)
    {
      requestCount := requestCount + 1;
      if !succeeded {
        failureCount := failureCount + 1;
        lastFailureTime := now;
        if state == HalfOpen {
          state := Open;
        } else if state == Closed && failureCount >= maxFailures {
          state := Open;
        }
      } else {
        successCount := successCount + 1;
        lastSuccessTime := now;
        if state == HalfOpen {
          failureCount := 0;
          state := Closed;
        }
      }
    }

    method Reset()
      modifies this
      ensures View() == Cleared(old(View()))
    {
      state := Closed;
      failureCount, requestCount, successCount := 0, 0, 0;
      lastFailureTime, lastSuccessTime := ZERO_TIME, ZERO_TIME;
    }
  }
}

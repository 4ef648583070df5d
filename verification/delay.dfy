/** Waiting between attempts (internal/retry/policy.go) and the plain retry loop that waits
    (internal/retry/executor.go).  Durations are nanoseconds; each random factor is an input. */
module RetryDelays {
  import opened RetryExecutors
  import opened Wrappers

  datatype Backoff = Exponential | Linear | Fixed | ExponentialWithJitter | RateLimit | Network

  /** `backoff` is unset when `None`. */
  datatype DelayPolicy = DelayPolicy(maxAttempts: int, baseDelay: int, maxDelay: int, backoff: Option<Backoff>, jitter: bool)

  /** A random factor, at least zero and below one. */
  type Chance = x: real | 0.0 <= x < 1.0

  function Pow(m: real, n: nat): real {
    if n == 0 then 1.0 else m * Pow(m, n - 1)
  }

  /** Conversion to an integer duration drops the fraction. */
  function Truncate(x: real): int {
    if x >= 0.0 then x.Floor else -(-x).Floor
  }

  function Scaled(base: int, m: real, attempt: int): int {
    if attempt <= 0 then base else Truncate(base as real * Pow(m, attempt - 1))
  }

  function WithJitter(delay: int, chance: Chance): int {
    delay + Truncate(chance * (delay as real * 0.1))
  }

  /** The delay a backoff function asks for. */
  function Asked(f: Backoff, attempt: int, base: int, chance: Chance): int {
    match f
    case Exponential => Scaled(base, 2.0, attempt)
    case Linear => if attempt <= 0 then base else base * attempt
    case Fixed => base
    case ExponentialWithJitter => WithJitter(Scaled(base, 2.0, attempt), chance)
    case RateLimit => Scaled(base, 3.0, attempt)
    case Network => Scaled(base, 1.5, attempt)
  }

  function Delay(p: DelayPolicy, attempt: int, chance: Chance, chance2: Chance): int {
    if p.backoff.None? then p.baseDelay
    else
      var capped := Min(Asked(p.backoff.value, attempt, p.baseDelay, chance), p.maxDelay);
      if p.jitter then WithJitter(capped, chance2) else capped
  }

  method CalculateDelay(p: DelayPolicy, attempt: int, chance: Chance, chance2: Chance) returns (delay: int)
    ensures delay == Delay(p, attempt, chance, chance2)
  {
    if p.backoff.None? {
      return p.baseDelay;
    }
    delay := Asked(p.backoff.value, attempt, p.baseDelay, chance);
    if delay > p.maxDelay {
      delay := p.maxDelay;
    }
    if p.jitter {
      delay := WithJitter(delay, chance2);
    }
  }

  // ---------------------------------------------------------------- bounds

  lemma Truncated(x: real)
    requires x >= 0.0
    ensures Truncate(x) >= 0 && Truncate(x) as real <= x < Truncate(x) as real + 1.0
  {
  }

  lemma TruncateGrows(n: int, x: real, y: real)
    requires 0.0 <= x <= y
    ensures Truncate(x) <= Truncate(y)
    ensures n as real <= x ==> n <= Truncate(x)
  {
    Truncated(x);
    Truncated(y);
  }

  lemma JitterIsATenth(delay: int, chance: Chance)
    requires delay >= 0
    ensures delay <= WithJitter(delay, chance) && 10 * WithJitter(delay, chance) <= 11 * delay
  {
    PartOf(chance, delay as real * 0.1);
    AddedPart(delay, chance * (delay as real * 0.1));
  }

  /** What jitter adds is the random part of a tenth, rounded down. */
  lemma JitterIsExact(delay: int, chance: Chance)
    requires delay >= 0
    ensures var extra := WithJitter(delay, chance) - delay;
            extra as real <= chance * (delay as real * 0.1) < extra as real + 1.0
  {
    PartOf(chance, delay as real * 0.1);
    Truncated(chance * (delay as real * 0.1));
  }

  lemma PartOf(chance: Chance, x: real)
    requires x >= 0.0
    ensures 0.0 <= chance * x <= x
  {
    NotNegative(chance, x);
    Product(chance, 1.0, x);
  }

  lemma AddedPart(delay: int, extra: real)
    requires 0.0 <= extra <= delay as real * 0.1
    ensures Truncate(extra) >= 0 && 10 * (delay + Truncate(extra)) <= 11 * delay
  {
    Truncated(extra);
    ATenth(delay, Truncate(extra));
  }

  lemma NotNegative(a: real, b: real)
    requires a >= 0.0 && b >= 0.0
    ensures a * b >= 0.0
  {
  }

  lemma ATenth(delay: int, n: int)
    requires n as real <= delay as real * 0.1
    ensures 10 * n <= delay
  {
    assert (10 * n) as real == 10.0 * n as real;
    assert (10 * n) as real <= delay as real;
  }

  lemma Product(a: real, b: real, c: real)
    requires a <= b && c >= 0.0
    ensures a * c <= b * c
  {
  }

  lemma {:induction false} PowGrows(m: real, a: nat, b: nat)
    requires m >= 1.0 && a <= b
    ensures 1.0 <= Pow(m, a) <= Pow(m, b)
  {
    if b > 0 {
      if a < b {
        PowGrows(m, a, b - 1);
      } else {
        PowGrows(m, a - 1, b - 1);
      }
      Product(1.0, m, Pow(m, b - 1));
    }
  }

  lemma ScaledGrows(base: int, m: real, a: int, b: int)
    requires base >= 0 && m >= 1.0 && a <= b
    ensures base <= Scaled(base, m, a) <= Scaled(base, m, b)
  {
    ScaledAtLeast(base, m, a);
    if a <= 0 {
      ScaledAtLeast(base, m, b);
    } else {
      LaterScalesMore(base, m, a, b);
    }
  }

  lemma LaterScalesMore(base: int, m: real, a: int, b: int)
    requires base >= 0 && m >= 1.0 && 0 < a <= b
    ensures Scaled(base, m, a) <= Scaled(base, m, b)
  {
    var x, y := base as real * Pow(m, a - 1), base as real * Pow(m, b - 1);
    PowGrows(m, a - 1, b - 1);
    NotNegative(base as real, Pow(m, a - 1));
    Product(Pow(m, a - 1), Pow(m, b - 1), base as real);
    TruncateGrows(base, x, y);
  }

  lemma ScaledAtLeast(base: int, m: real, n: int)
    requires base >= 0 && m >= 1.0
    ensures base <= Scaled(base, m, n)
  {
    if n > 0 {
      PowGrows(m, n - 1, n - 1);
      Product(1.0, Pow(m, n - 1), base as real);
      TruncateGrows(base, base as real * Pow(m, n - 1), base as real * Pow(m, n - 1));
    }
  }

  /** Every backoff function asks for at least the base delay; all but the randomised one never ask
      for less on a later attempt. */
  lemma AskedGrows(f: Backoff, a: int, b: int, base: int, chance: Chance)
    requires base >= 0 && a <= b
    ensures base <= Asked(f, a, base, chance)
    ensures f != ExponentialWithJitter ==> Asked(f, a, base, chance) <= Asked(f, b, base, chance)
  {
    match f
    case Exponential => ScaledGrows(base, 2.0, a, b);
    case Linear => LinearGrows(base, a, b);
    case Fixed =>
    case ExponentialWithJitter =>
      ScaledGrows(base, 2.0, a, b);
      JitterIsATenth(Scaled(base, 2.0, a), chance);
    case RateLimit => ScaledGrows(base, 3.0, a, b);
    case Network => ScaledGrows(base, 1.5, a, b);
  }

  lemma LinearGrows(base: int, a: int, b: int)
    requires base >= 0 && a <= b
    ensures base <= Asked(Linear, a, base, 0.0) <= Asked(Linear, b, base, 0.0)
  {
    if a > 0 {
      Multiples(1, a, base);
      Multiples(a, b, base);
    } else if b > 0 {
      Multiples(1, b, base);
    }
  }

  function Power(m: int, n: nat): (r: int)
    requires m >= 1
    ensures r >= 1
  {
    if n == 0 then 1 else m * Power(m, n - 1)
  }

  lemma {:induction false} PowIsPower(m: int, n: nat)
    requires m >= 1
    ensures Pow(m as real, n) == Power(m, n) as real
  {
    if n > 0 {
      PowIsPower(m, n - 1);
      assert (m * Power(m, n - 1)) as real == m as real * Power(m, n - 1) as real;
    }
  }

  lemma {:induction false} HalvesOfPowers(n: nat)
    ensures Pow(1.5, n) * Power(2, n) as real == Power(3, n) as real
  {
    if n > 0 {
      HalvesOfPowers(n - 1);
      var p, q := Pow(1.5, n - 1), Power(2, n - 1) as real;
      assert (2 * Power(2, n - 1)) as real == 2.0 * q;
      assert (1.5 * p) * (2.0 * q) == 3.0 * (p * q);
      assert (3 * Power(3, n - 1)) as real == 3.0 * Power(3, n - 1) as real;
    }
  }

  lemma ScaledByAnInteger(base: int, m: int, attempt: int)
    requires base >= 0 && m >= 1 && attempt >= 1
    ensures Scaled(base, m as real, attempt) == base * Power(m, attempt - 1)
  {
    PowIsPower(m, attempt - 1);
    assert base as real * Power(m, attempt - 1) as real == (base * Power(m, attempt - 1)) as real;
    PowGrows(m as real, 0, attempt - 1);
    NotNegative(base as real, Pow(m as real, attempt - 1));
  }

  lemma ScaledByThreeHalves(base: int, attempt: int)
    requires base >= 0 && attempt >= 1
    ensures Scaled(base, 1.5, attempt) == base * Power(3, attempt - 1) / Power(2, attempt - 1)
  {
    HalvesOfPowers(attempt - 1);
    PowGrows(1.5, 0, attempt - 1);
    ScaledQuotient(base, Pow(1.5, attempt - 1), Power(2, attempt - 1), Power(3, attempt - 1));
  }

  lemma ScaledQuotient(base: int, p: real, q: int, t: int)
    requires base >= 0 && p >= 0.0 && q >= 1 && p * q as real == t as real
    ensures Truncate(base as real * p) == base * t / q
  {
    NotNegative(base as real, p);
    Regrouped(base as real, p, q as real, t as real);
    ProductOfInts(base, t);
    QuotientOf(base * t, q, base as real * p);
  }

  lemma Regrouped(a: real, b: real, c: real, d: real)
    requires b * c == d
    ensures (a * b) * c == a * d
  {
  }

  lemma QuotientOf(a: int, q: int, x: real)
    requires q >= 1 && x >= 0.0 && x * q as real == a as real
    ensures Truncate(x) == a / q
  {
    var k := Truncate(x);
    Truncated(x);
    Between(k, x, k + 1, q);
    DivisionIs(a, q, k);
  }

  lemma Between(low: int, x: real, high: int, q: int)
    requires q >= 1 && low as real <= x < high as real
    ensures (low * q) as real <= x * q as real < (high * q) as real
  {
    Product(low as real, x, q as real);
    LessProduct(x, high as real, q as real);
    ProductOfInts(low, q);
    ProductOfInts(high, q);
  }

  lemma ProductOfInts(a: int, b: int)
    ensures a as real * b as real == (a * b) as real
  {
  }

  lemma LessProduct(a: real, b: real, c: real)
    requires a < b && c > 0.0
    ensures a * c < b * c
  {
  }

  lemma DivisionIs(a: int, q: int, k: int)
    requires q >= 1 && k * q <= a < (k + 1) * q
    ensures a / q == k
  {
    var d := a / q - k;
    assert d * q == (a / q) * q - k * q;
    assert d >= 1 ==> d * q >= q;
    assert d <= -1 ==> d * q <= -q;
  }

  /** What each backoff function asks for before attempt `n`: powers of two, multiples, the base delay,
      powers of three, powers of one and a half rounded down; the randomised one asks for at most a
      tenth more than the exponential. */
  lemma AskedIs(n: int, base: int, chance: Chance)
    requires base >= 0 && n >= 1
    ensures Asked(Exponential, n, base, chance) == base * Power(2, n - 1)
    ensures Asked(Linear, n, base, chance) == base * n
    ensures Asked(Fixed, n, base, chance) == base
    ensures Asked(RateLimit, n, base, chance) == base * Power(3, n - 1)
    ensures Asked(Network, n, base, chance) == base * Power(3, n - 1) / Power(2, n - 1)
    ensures var extra := Asked(ExponentialWithJitter, n, base, chance) - base * Power(2, n - 1);
            extra as real <= chance * ((base * Power(2, n - 1)) as real * 0.1) < extra as real + 1.0
  {
    ScaledByAnInteger(base, 2, n);
    ScaledByAnInteger(base, 3, n);
    ScaledByThreeHalves(base, n);
    ScaledAtLeast(base, 2.0, n);
    JitterIsExact(Scaled(base, 2.0, n), chance);
  }

  /** With a backoff function, a delay lies between the capped backoff and that plus a tenth. */
  lemma DelayIsCapped(p: DelayPolicy, attempt: int, chance: Chance, chance2: Chance)
    requires p.backoff.Some? && p.baseDelay >= 0 && p.maxDelay >= 0
    ensures Min(Asked(p.backoff.value, attempt, p.baseDelay, chance), p.maxDelay) <= Delay(p, attempt, chance, chance2)
    ensures 10 * Delay(p, attempt, chance, chance2) <= 11 * p.maxDelay
    ensures !p.jitter ==> Delay(p, attempt, chance, chance2) <= p.maxDelay
  {
    AskedGrows(p.backoff.value, attempt, attempt, p.baseDelay, chance);
    JitterIsATenth(Min(Asked(p.backoff.value, attempt, p.baseDelay, chance), p.maxDelay), chance2);
  }

  /** Jitter comes after the cap: it adds the random part of a tenth of the capped delay, rounded down. */
  lemma JitterComesLast(p: DelayPolicy, attempt: int, chance: Chance, chance2: Chance)
    requires p.backoff.Some? && p.baseDelay >= 0 && p.maxDelay >= 0
    ensures var capped := Min(Asked(p.backoff.value, attempt, p.baseDelay, chance), p.maxDelay);
            var extra := Delay(p, attempt, chance, chance2) - capped;
            if p.jitter then extra as real <= chance2 * (capped as real * 0.1) < extra as real + 1.0 else extra == 0
  {
    AskedGrows(p.backoff.value, attempt, attempt, p.baseDelay, chance);
    JitterIsExact(Min(Asked(p.backoff.value, attempt, p.baseDelay, chance), p.maxDelay), chance2);
  }

  /** Without one, the base delay is used as it is: the cap holds for every attempt exactly when a
      backoff function is set or the base delay respects it. */
  lemma CapHoldsExactlyWhen(p: DelayPolicy, attempt: int, chance: Chance, chance2: Chance)
    requires p.baseDelay >= 0 && p.maxDelay >= 0
    ensures 10 * Delay(p, attempt, chance, chance2) <= 11 * p.maxDelay <==>
            p.backoff.Some? || 10 * p.baseDelay <= 11 * p.maxDelay
  {
    if p.backoff.Some? {
      DelayIsCapped(p, attempt, chance, chance2);
    }
  }

  /** Without jitter of either kind, later attempts never wait less. */
  lemma DelayGrows(p: DelayPolicy, a: int, b: int, c1: Chance, c2: Chance, c3: Chance, c4: Chance)
    requires p.baseDelay >= 0 && a <= b && !p.jitter && p.backoff != Some(ExponentialWithJitter)
    ensures Delay(p, a, c1, c2) <= Delay(p, b, c3, c4)
  {
    if p.backoff.Some? {
      AskedGrows(p.backoff.value, a, b, p.baseDelay, c1);
    }
  }

  // ---------------------------------------------------------------- the plain retry loop

  datatype Try = Try(outcome: Outcome, cancelled: bool, chance: Chance, chance2: Chance)

  /** The waits after attempts 1 to `n`. */
  function Waited(p: DelayPolicy, world: int -> Try, n: nat): int {
    if n == 0 then 0 else Waited(p, world, n - 1) + Delay(p, n, world(n).chance, world(n).chance2)
  }

  /** Attempt `i` failed with a retryable error. */
  predicate FailedRetryably(world: int -> Try, i: int) {
    world(i).outcome == Fails(true)
  }

  /** `Execute`: tries until success, a final error, cancellation of a wait, or the last attempt. */
  method Execute(p: DelayPolicy, world: int -> Try) returns (end: End, calls: nat, waited: int)
    ensures calls <= (if p.maxAttempts < 0 then 0 else p.maxAttempts)
    ensures forall i :: 1 <= i < calls ==> FailedRetryably(world, i) && !world(i).cancelled
    ensures calls == 0 <==> p.maxAttempts <= 0
    ensures match end
            case Success => calls > 0 && world(calls).outcome.Succeeds?
            case NonRetryable(a) => a == calls > 0 && world(calls).outcome == Fails(false)
            case Cancelled => calls > 0 && FailedRetryably(world, calls) && world(calls).cancelled && calls < p.maxAttempts
            case Exhausted => (calls > 0 ==> FailedRetryably(world, calls)) && calls >= p.maxAttempts
    ensures waited == Waited(p, world, if calls == 0 then 0 else calls - 1)
  {
    waited := 0;
    calls := 0;
    var attempt := 1;
    while attempt <= p.maxAttempts
      invariant attempt == calls + 1
      invariant calls <= p.maxAttempts || calls == 0
      invariant forall i :: 1 <= i <= calls ==> FailedRetryably(world, i) && !world(i).cancelled
      invariant waited == Waited(p, world, calls)
      invariant calls > 0 ==> calls < p.maxAttempts
      decreases p.maxAttempts - attempt
    {
      calls := attempt;
      var w := world(attempt);
      if w.outcome.Succeeds? {
        return Success, calls, waited;
      }
      if !w.outcome.retryable {
        return NonRetryable(attempt), calls, waited;
      }
      if attempt == p.maxAttempts {
        break;
      }
      var delay := CalculateDelay(p, attempt, w.chance, w.chance2);
      if w.cancelled {
        return Cancelled, calls, waited;
      }
      waited := waited + delay;
      attempt := attempt + 1;
    }
    end := Exhausted;
  }

  /** The waits of one run total at most a tenth more than the cap for each wait. */
  lemma {:induction false} TotalWaitIsBounded(p: DelayPolicy, world: int -> Try, n: nat)
    requires p.backoff.Some? && p.baseDelay >= 0 && p.maxDelay >= 0
    requires n == 0 || n < p.maxAttempts
    ensures 0 <= 10 * Waited(p, world, n) <= n * (11 * p.maxDelay)
    ensures n > 0 ==> 10 * Waited(p, world, n) <= (p.maxAttempts - 1) * (11 * p.maxDelay)
  {
    if n > 0 {
      TotalWaitIsBounded(p, world, n - 1);
      DelayIsCapped(p, n, world(n).chance, world(n).chance2);
      AskedGrows(p.backoff.value, n, n, p.baseDelay, world(n).chance);
      Multiples(n - 1, n, 11 * p.maxDelay);
      Multiples(n, p.maxAttempts - 1, 11 * p.maxDelay);
    }
  }

  lemma Multiples(a: int, b: int, c: int)
    requires a <= b && c >= 0
    ensures b * c == a * c + (b - a) * c && a * c <= b * c
  {
  }
}

/**
 The polling arithmetic of workers/push/receipt-lifecycle.ts: exponential back-off with jitter,
 capped by the hour and by the horizon of the receipt. Times are milliseconds.
 */
module PollSchedule {
  import opened Wrappers

  const INITIAL_DELAY := 15 * 60_000
  const HORIZON := (23 * 60 + 45) * 60_000
  const BASE_DELAY := 60_000
  const MAX_DELAY := 60 * 60_000

  /** What `random()` may return. */
  datatype Random = NotFinite | Finite(value: real)

  function Min(a: int, b: int): int { if a <= b then a else b }
  function Max(a: int, b: int): int { if a <= b then b else a }

  function Pow2(n: nat): (p: nat)
    ensures p >= 1
  {
    if n == 0 then 1 else 2 * Pow2(n - 1)
  }

  /** Math.round. */
  function Round(x: real): int { (x + 0.5).Floor }

  /** The delay before it is rounded and limited. */
  function Exact(exponential: int, jitter: real): real { exponential as real * jitter }

  function Jittered(exponential: int, jitter: real): int { Round(Exact(exponential, jitter)) }

  function Limited(delay: int): int { Max(1, Min(MAX_DELAY, delay)) }

  function Exponential(attempt: int): int
    requires 1 <= attempt
  {
    Min(MAX_DELAY, BASE_DELAY * Pow2(Min(attempt - 1, 20)))
  }

  /** `None` is the TypeError thrown for a random value outside [0, 1]. */
  function RetryDelay(attempt: int, random: Random): (delay: Option<int>)
    requires 1 <= attempt
    ensures delay.Some? <==> random.Finite? && 0.0 <= random.value <= 1.0
    ensures delay.Some? ==> 4 * Exponential(attempt) <= 5 * delay.value
    ensures delay.Some? ==> 1 <= delay.value <= MAX_DELAY
  {
    if random.NotFinite? || random.value < 0.0 || random.value > 1.0 then None
    else
      hide Jittered;
      var jitter := 0.8 + random.value * 0.4;
      ExponentialRange(attempt);
      RoundedAbove(Exponential(attempt), jitter);
      Some(Limited(Jittered(Exponential(attempt), jitter)))
  }

  lemma RoundedAbove(exponential: int, jitter: real)
    requires exponential >= 0 && exponential % 5 == 0
    requires jitter >= 0.8
    ensures 4 * exponential <= 5 * Jittered(exponential, jitter)
  {
    var fifth := exponential / 5;
    var e, x := exponential as real, exponential as real * jitter;
    assert x - e * 0.8 == e * (jitter - 0.8);
    assert e == 5.0 * fifth as real;
    assert x >= (4 * fifth) as real;
  }

  lemma ExponentialRange(attempt: int)
    requires 1 <= attempt
    ensures BASE_DELAY <= Exponential(attempt) <= MAX_DELAY
    ensures Exponential(attempt) % 5 == 0
  {
    var p := Pow2(Min(attempt - 1, 20));
    assert BASE_DELAY * p == 5 * (12_000 * p);
  }

  lemma LimitedIsNearest(exact: real)
    requires exact >= 1.0
    ensures var delay := Limited(Round(exact));
            if exact >= 3_600_000.0 then delay == 3_600_000 else delay as real - 0.5 <= exact < delay as real + 0.5
  {
  }

  lemma ExactIsProduct(exponential: int, jitter: real)
    ensures Exact(exponential, jitter) == exponential as real * jitter
  {
  }

  lemma JitterKeepsAbove(exponential: int, jitter: real)
    requires exponential >= 60_000 && jitter >= 0.8
    ensures Exact(exponential, jitter) >= 48_000.0
  {
    var e := exponential as real;
    assert e * jitter - e * 0.8 == e * (jitter - 0.8);
  }

  /**
   The delay is the exponential times 0.8 to 1.2, as the random value says, to the nearest millisecond and
   up to an hour.
   */
  lemma DelayIsJittered(attempt: int, value: real)
    requires 1 <= attempt && 0.0 <= value <= 1.0
    ensures var delay, exact := RetryDelay(attempt, Finite(value)), Exact(Exponential(attempt), 0.8 + value * 0.4);
            && delay.Some? && exact == Exponential(attempt) as real * (0.8 + value * 0.4)
            && if exact >= 3_600_000.0 then delay.value == 3_600_000
               else delay.value as real - 0.5 <= exact < delay.value as real + 0.5
  {
    ExactIsProduct(Exponential(attempt), 0.8 + value * 0.4);
    hide Exponential, Exact, Round, Limited;
    ExponentialRange(attempt);
    JitterKeepsAbove(Exponential(attempt), 0.8 + value * 0.4);
    LimitedIsNearest(Exact(Exponential(attempt), 0.8 + value * 0.4));
  }

  /** The un-jittered back-off: a minute for the first poll, doubling with every poll, up to an hour. */
  lemma BackoffDoubles(attempt: int)
    requires 1 <= attempt
    ensures Exponential(1) == 60_000
    ensures Exponential(attempt + 1) ==
            if 2 * Exponential(attempt) <= 3_600_000 then 2 * Exponential(attempt) else 3_600_000
  {
    if attempt >= 7 {
      Pow2AtLeast64(Min(attempt - 1, 20));
      Pow2AtLeast64(Min(attempt, 20));
    } else {
      assert Pow2(attempt) == 2 * Pow2(attempt - 1);
    }
  }

  /** The least time, from acceptance, at which poll `attempt` can fall due below the horizon. */
  function EarliestDue(attempt: int): int
    requires 1 <= attempt
    decreases attempt
  {
    if attempt == 1 then INITIAL_DELAY else EarliestDue(attempt - 1) + 4 * Exponential(attempt - 1) / 5
  }

  lemma {:induction false} EarliestDueAfterBackoff(attempt: int)
    requires 7 <= attempt
    ensures EarliestDue(attempt) == 3_924_000 + (attempt - 7) * 2_880_000
    decreases attempt
  {
    if attempt == 7 {
      assert Pow2(1) == 2 && Pow2(2) == 4 && Pow2(3) == 8 && Pow2(4) == 16 && Pow2(5) == 32;
      assert EarliestDue(2) == INITIAL_DELAY + 48_000;
      assert EarliestDue(3) == INITIAL_DELAY + 144_000;
      assert EarliestDue(4) == INITIAL_DELAY + 336_000;
      assert EarliestDue(5) == INITIAL_DELAY + 720_000;
      assert EarliestDue(6) == INITIAL_DELAY + 1_488_000;
    } else {
      EarliestDueAfterBackoff(attempt - 1);
      Pow2AtLeast64(Min(attempt - 2, 20));
    }
  }

  lemma {:induction false} Pow2AtLeast64(n: nat)
    requires 6 <= n
    ensures Pow2(n) >= 64
  {
    if n == 6 {
      assert Pow2(1) == 2 && Pow2(2) == 4 && Pow2(3) == 8 && Pow2(4) == 16 && Pow2(5) == 32;
    } else {
      Pow2AtLeast64(n - 1);
    }
  }

  /** A poll that falls due before the horizon is at most the 35th, so the next is at most the 36th. */
  lemma DueBelowHorizonBoundsAttempt(attempt: int)
    requires 1 <= attempt
    requires EarliestDue(attempt) < HORIZON
    ensures attempt <= 35
  {
    if attempt > 35 {
      EarliestDueAfterBackoff(attempt);
    }
  }
}

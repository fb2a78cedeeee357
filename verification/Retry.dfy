/** Retrying with jittered, capped exponential backoff.  Durations are real numbers of seconds. */
module Retry {
  import opened Arithmetic
  import opened Sequences

  datatype RetryConfig = RetryConfig(maxRetries: nat, initialDelay: real, maxDelay: real, multiplier: real) {
    /** What `Duration` and the strategy can represent. */
    predicate Sensible() { initialDelay >= 0.0 && maxDelay >= 0.0 && multiplier >= 0.0 }

    /** What the SDK's own validation of a retry configuration asks for. */
    predicate Validated() { Sensible() && multiplier >= 1.0 && initialDelay <= maxDelay }
  }

  /** The random factor of each retry, before it is scaled to at most 10%. */
  ghost predicate Jitters(draws: nat -> real) { forall k: nat :: 0.0 <= draws(k) < 1.0 }

  function Min(a: real, b: real): real { if a <= b then a else b }

  /** Times the multiplier, capped, plus jitter, capped again. */
  function NextDelay(c: RetryConfig, delay: real, draw: real): real { WithJitter(delay * c.multiplier, c.maxDelay, draw) }

  function WithJitter(grown: real, cap: real, draw: real): real {
    var base := Min(grown, cap);
    Min(base + base * (0.1 * draw), cap)
  }

  function Delay(c: RetryConfig, draws: nat -> real, k: nat): real {
    if k == 0 then c.initialDelay else NextDelay(c, Delay(c, draws, k - 1), draws(k - 1))
  }

  function Delays(c: RetryConfig, draws: nat -> real, n: nat): seq<real> { seq(n, k requires 0 <= k < n => Delay(c, draws, k)) }

  datatype Outcome = Success | RetryExhausted

  /** No call before the `n`-th succeeds. */
  ghost predicate AllFail(succeeds: nat -> bool, n: nat) { forall k: nat :: k < n ==> !succeeds(k) }

  class RetryStrategy {
    const config: RetryConfig

    constructor (config: RetryConfig)
      ensures this.config == config
    {
      this.config := config;
    }

    /** Call `k` of the operation, counted from 0, succeeds iff `succeeds(k)`; `sleeps` is what was slept, in order. */
    method Retry(succeeds: nat -> bool, draws: nat -> real) returns (outcome: Outcome, calls: nat, sleeps: seq<real>)
      ensures 1 <= calls <= config.maxRetries + 1
      ensures outcome.Success? <==> succeeds(calls - 1)
      ensures AllFail(succeeds, calls - 1)
      ensures outcome.RetryExhausted? ==> calls == config.maxRetries + 1
      ensures sleeps == Delays(config, draws, calls - 1)
    {
      var attempts := 0;
      var currentDelay := config.initialDelay;
      sleeps := [];
      while true
        invariant attempts <= config.maxRetries
        invariant AllFail(succeeds, attempts)
        invariant currentDelay == Delay(config, draws, attempts)
        invariant sleeps == Delays(config, draws, attempts)
        decreases config.maxRetries - attempts
      {
        attempts := attempts + 1;
        if succeeds(attempts - 1) {
          return Success, attempts, sleeps;
        }
        if attempts > config.maxRetries {
          return RetryExhausted, attempts, sleeps;
        }
        sleeps := sleeps + [currentDelay];
        currentDelay := NextDelay(config, currentDelay, draws(attempts - 1));
      }
    }
  }

  /** The number of calls is forced: the first success, or one more than the retries. */
  lemma {:induction false} CallsDetermined(c: RetryConfig, succeeds: nat -> bool, calls: nat, first: nat)
    requires 1 <= calls <= c.maxRetries + 1 && AllFail(succeeds, calls - 1)
    requires succeeds(calls - 1) || calls == c.maxRetries + 1
    requires AllFail(succeeds, first) && succeeds(first)
    ensures calls == (if first + 1 <= c.maxRetries + 1 then first + 1 else c.maxRetries + 1)
  {
    if calls - 1 < first {
      assert !succeeds(calls - 1);
    }
  }

  // ---------------------------------------------------------------- how long it sleeps

  function Power(x: real, k: nat): real { if k == 0 then 1.0 else x * Power(x, k - 1) }

  lemma {:induction false} JitterAtMostTenth(base: real, draw: real)
    requires base >= 0.0 && 0.0 <= draw < 1.0
    ensures base <= base + base * (0.1 * draw) <= 1.1 * base
  {
    var j := 0.1 * draw;
    NonNegativeProduct(base, j);
    ScaleOrdered(j, 0.1, base);
    assert base * j == j * base;
  }

  /** The linear part of a step, with the two products named. */
  lemma {:induction false} StepBounds(delay: real, cap: real, grown: real, jittered: real)
    requires 0.0 <= delay <= cap && delay <= grown
    requires Min(grown, cap) <= jittered <= 1.1 * Min(grown, cap)
    ensures delay <= Min(jittered, cap) <= cap
    ensures Min(grown, cap) <= Min(jittered, cap) <= Min(1.1 * grown, cap)
  {
  }

  /** One step: between the delay without jitter and the delay with full jitter, and never below what it was. */
  lemma {:induction false} OneStep(c: RetryConfig, delay: real, draw: real)
    requires c.Validated() && 0.0 <= delay <= c.maxDelay && 0.0 <= draw < 1.0
    ensures delay <= NextDelay(c, delay, draw) <= c.maxDelay
    ensures Min(delay * c.multiplier, c.maxDelay) <= NextDelay(c, delay, draw)
    ensures NextDelay(c, delay, draw) <= Min(1.1 * (delay * c.multiplier), c.maxDelay)
  {
    OneStepGrown(c, delay, draw, delay * c.multiplier);
  }

  lemma {:induction false} OneStepGrown(c: RetryConfig, delay: real, draw: real, grown: real)
    requires c.Validated() && 0.0 <= delay <= c.maxDelay && 0.0 <= draw < 1.0 && grown == delay * c.multiplier
    ensures delay <= WithJitter(grown, c.maxDelay, draw) <= c.maxDelay
    ensures Min(grown, c.maxDelay) <= WithJitter(grown, c.maxDelay, draw) <= Min(1.1 * grown, c.maxDelay)
  {
    Grows(delay, c.multiplier);
    JitteredBounds(delay, c.maxDelay, grown, draw);
  }

  lemma {:induction false} JitteredBounds(delay: real, cap: real, grown: real, draw: real)
    requires 0.0 <= delay <= cap && delay <= grown && 0.0 <= draw < 1.0
    ensures delay <= WithJitter(grown, cap, draw) <= cap
    ensures Min(grown, cap) <= WithJitter(grown, cap, draw) <= Min(1.1 * grown, cap)
  {
    var base := Min(grown, cap);
    JitterAtMostTenth(base, draw);
    StepBounds(delay, cap, grown, base + base * (0.1 * draw));
  }

  lemma {:induction false} Grows(a: real, m: real)
    requires a >= 0.0 && m >= 1.0
    ensures a <= a * m
  {
    NonNegativeProduct(a, m - 1.0);
    assert a * m == a + a * (m - 1.0);
  }

  lemma {:induction false} Tenth(a: real, m: real, full: real)
    requires full == 1.1 * m
    ensures a * full == 1.1 * (a * m)
  {
  }

  lemma {:induction false} DelayInRange(c: RetryConfig, draws: nat -> real, k: nat)
    requires c.Validated() && Jitters(draws)
    ensures 0.0 <= Delay(c, draws, k) <= c.maxDelay
    ensures Delay(c, draws, k) <= Delay(c, draws, k + 1)
  {
    if k > 0 {
      DelayInRange(c, draws, k - 1);
    }
    OneStep(c, Delay(c, draws, k), draws(k));
  }

  /** A factor as a function, so that the envelope is proved for any monotone growth. */
  function Scale(m: real): real -> real { x => x * m }

  ghost predicate Monotone(grow: real -> real) { forall a, b :: a <= b ==> grow(a) <= grow(b) }

  function Iterate(grow: real -> real, x: real, k: nat): real { if k == 0 then x else grow(Iterate(grow, x, k - 1)) }

  lemma {:induction false} ScaleIsMonotone(m: real)
    requires m >= 0.0
    ensures Monotone(Scale(m))
  {
    forall a, b | a <= b ensures Scale(m)(a) <= Scale(m)(b) {
      ScaleOrdered(a, b, m);
    }
  }

  /** In closed form: `k` applications of a factor multiply by its `k`-th power. */
  lemma {:induction false} IteratedScale(x: real, m: real, k: nat)
    ensures Iterate(Scale(m), x, k) == x * Power(m, k)
  {
    if k > 0 {
      IteratedScale(x, m, k - 1);
      Rotate(x, m, Power(m, k - 1));
    }
  }

  lemma {:induction false} Rotate(x: real, m: real, p: real)
    ensures (x * p) * m == x * (m * p)
  {
  }

  /** Delays that keep up with `grow` up to the cap stay above its capped iterates. */
  lemma {:induction false} AboveIterates(grow: real -> real, cap: real, d: nat -> real, k: nat)
    requires Monotone(grow) && cap <= grow(cap)
    requires forall j: nat :: Min(grow(d(j)), cap) <= d(j + 1)
    ensures Min(Iterate(grow, d(0), k), cap) <= d(k)
  {
    if k > 0 {
      AboveIterates(grow, cap, d, k - 1);
      var low := Iterate(grow, d(0), k - 1);
      assert grow(Min(low, cap)) <= grow(d(k - 1));
      assert Min(grow(d(k - 1)), cap) <= d(k - 1 + 1);
    }
  }

  /** Delays that never outgrow `grow` or the cap stay below its capped iterates. */
  lemma {:induction false} BelowIterates(grow: real -> real, cap: real, d: nat -> real, k: nat)
    requires Monotone(grow) && d(0) <= cap
    requires forall j: nat :: d(j + 1) <= Min(grow(d(j)), cap)
    ensures d(k) <= Min(Iterate(grow, d(0), k), cap)
  {
    if k > 0 {
      BelowIterates(grow, cap, d, k - 1);
      assert grow(d(k - 1)) <= grow(Iterate(grow, d(0), k - 1));
      assert d(k - 1 + 1) <= Min(grow(d(k - 1)), cap);
    }
  }

  /** The delays of one retry run as a function of the attempt. */
  function Schedule(c: RetryConfig, draws: nat -> real): nat -> real { (k: nat) => Delay(c, draws, k) }

  lemma {:induction false} StepAbove(c: RetryConfig, delay: real, draw: real, grow: real -> real)
    requires c.Validated() && 0.0 <= delay <= c.maxDelay && 0.0 <= draw < 1.0
    requires grow(delay) == delay * c.multiplier
    ensures Min(grow(delay), c.maxDelay) <= NextDelay(c, delay, draw)
  {
    OneStep(c, delay, draw);
  }

  lemma {:induction false} ScheduleKeepsUp(c: RetryConfig, draws: nat -> real, grow: real -> real, k: nat)
    requires c.Validated() && Jitters(draws)
    requires forall x :: grow(x) == x * c.multiplier
    ensures Min(grow(Schedule(c, draws)(k)), c.maxDelay) <= Schedule(c, draws)(k + 1)
  {
    DelayInRange(c, draws, k);
    StepAbove(c, Delay(c, draws, k), draws(k), grow);
  }

  lemma {:induction false} StepBelow(c: RetryConfig, delay: real, draw: real, full: real -> real)
    requires c.Validated() && 0.0 <= delay <= c.maxDelay && 0.0 <= draw < 1.0
    requires full(delay) == 1.1 * (delay * c.multiplier)
    ensures NextDelay(c, delay, draw) <= Min(full(delay), c.maxDelay)
  {
    OneStep(c, delay, draw);
  }

  lemma {:induction false} ScheduleStaysBelow(c: RetryConfig, draws: nat -> real, full: real -> real, k: nat)
    requires c.Validated() && Jitters(draws)
    requires forall x :: full(x) == 1.1 * (x * c.multiplier)
    ensures Schedule(c, draws)(k + 1) <= Min(full(Schedule(c, draws)(k)), c.maxDelay)
  {
    DelayInRange(c, draws, k);
    StepBelow(c, Delay(c, draws, k), draws(k), full);
  }

  lemma {:induction false} ScaleTenth(m: real, full: real)
    requires full == 1.1 * m
    ensures forall x :: Scale(full)(x) == 1.1 * (x * m)
  {
    forall x ensures Scale(full)(x) == 1.1 * (x * m) {
      Tenth(x, m, full);
    }
  }

  lemma {:induction false} ScaleGrows(m: real, x: real)
    requires m >= 1.0 && x >= 0.0
    ensures x <= Scale(m)(x)
  {
    Grows(x, m);
  }

  /** The same envelope with the factors as functions. */
  lemma {:induction false} ScheduleAbove(c: RetryConfig, draws: nat -> real, grow: real -> real, k: nat)
    requires c.Validated() && Jitters(draws)
    requires forall x :: grow(x) == x * c.multiplier
    requires Monotone(grow) && c.maxDelay <= grow(c.maxDelay)
    ensures Min(Iterate(grow, c.initialDelay, k), c.maxDelay) <= Schedule(c, draws)(k)
  {
    var d := Schedule(c, draws);
    forall j: nat ensures Min(grow(d(j)), c.maxDelay) <= d(j + 1) {
      ScheduleKeepsUp(c, draws, grow, j);
    }
    assert d(0) == c.initialDelay;
    AboveIterates(grow, c.maxDelay, d, k);
  }

  lemma {:induction false} ScheduleBelow(c: RetryConfig, draws: nat -> real, full: real -> real, k: nat)
    requires c.Validated() && Jitters(draws)
    requires Monotone(full) && forall x :: full(x) == 1.1 * (x * c.multiplier)
    ensures Schedule(c, draws)(k) <= Min(Iterate(full, c.initialDelay, k), c.maxDelay)
  {
    var d := Schedule(c, draws);
    forall j: nat ensures d(j + 1) <= Min(full(d(j)), c.maxDelay) {
      ScheduleStaysBelow(c, draws, full, j);
    }
    assert d(0) == c.initialDelay;
    BelowIterates(full, c.maxDelay, d, k);
  }

  /** The k-th sleep lies between the capped plain and the capped fully jittered exponential (see IteratedScale). */
  lemma {:induction false} DelayEnvelope(c: RetryConfig, draws: nat -> real, full: real, k: nat)
    requires c.Validated() && Jitters(draws) && full == 1.1 * c.multiplier
    ensures Min(Iterate(Scale(c.multiplier), c.initialDelay, k), c.maxDelay) <= Delay(c, draws, k)
    ensures Delay(c, draws, k) <= Min(Iterate(Scale(full), c.initialDelay, k), c.maxDelay)
  {
    ScaleIsMonotone(c.multiplier);
    ScaleIsMonotone(full);
    ScaleTenth(c.multiplier, full);
    ScaleGrows(c.multiplier, c.maxDelay);
    ScheduleAbove(c, draws, Scale(c.multiplier), k);
    ScheduleBelow(c, draws, Scale(full), k);
  }

  // ---------------------------------------------------------------- the jitter itself

  /** Scaling by at least 1 after the cap, and capping again, is scaling before the cap. */
  lemma {:induction false} CapOnce(a: real, cap: real, f: real)
    requires f >= 1.0 && cap >= 0.0
    ensures Min(Min(a, cap) * f, cap) == Min(a * f, cap)
  {
    if a > cap {
      ScaleOrdered(cap, a, f);
      Grows(cap, f);
    }
  }

  lemma {:induction false} JitterIsFactor(base: real, draw: real, f: real)
    requires f == 1.0 + 0.1 * draw
    ensures base + base * (0.1 * draw) == base * f
  {
    var j := 0.1 * draw;
    assert base * (1.0 + j) == base + base * j;
  }

  /** One step multiplies by one plus a tenth of the draw, under the cap. */
  lemma {:induction false} JitterIsScaling(grown: real, cap: real, draw: real, f: real)
    requires cap >= 0.0 && 0.0 <= draw < 1.0 && f == 1.0 + 0.1 * draw
    ensures WithJitter(grown, cap, draw) == Min(grown * f, cap)
  {
    JitterIsFactor(Min(grown, cap), draw, f);
    CapOnce(grown, cap, f);
  }

  /** `first` and `second` are the two delays after the multiplier, and `f` what the jitter makes of them. */
  lemma {:induction false} CapAfterBoth(before: real, grown: real, cap: real, m: real, f: real, first: real, second: real)
    requires m >= 1.0 && f >= 1.0 && cap >= 0.0 && before == Min(grown, cap)
    requires first == before * m && second == grown * m
    ensures Min(first * f, cap) == Min(second * f, cap)
  {
    Associate(before, m, f);
    Associate(grown, m, f);
    Grows(m, f);
    CapOnce(grown, cap, m * f);
  }

  lemma {:induction false} Associate(x: real, m: real, f: real)
    ensures (x * m) * f == x * (m * f)
  {
  }

  /** What each draw multiplies a delay by. */
  ghost predicate Factors(draws: nat -> real, factors: nat -> real) { forall k: nat :: factors(k) == 1.0 + 0.1 * draws(k) }

  /** One retry's growth: the multiplier, then the jitter's factor. */
  function Growth(c: RetryConfig, factors: nat -> real): nat -> real -> real {
    (k: nat) => (x: real) => (x * c.multiplier) * factors(k)
  }

  /** `x` grown `k` times, without any cap. */
  function Uncapped(grow: nat -> real -> real, x: real, k: nat): real {
    if k == 0 then x else grow(k - 1)(Uncapped(grow, x, k - 1))
  }

  /** Capping before a growth that is capped again changes nothing. */
  lemma {:induction false} GrowthCapCommutes(c: RetryConfig, factors: nat -> real, k: nat, x: real)
    requires c.Validated() && factors(k) >= 1.0
    ensures Min(Growth(c, factors)(k)(Min(x, c.maxDelay)), c.maxDelay) == Min(Growth(c, factors)(k)(x), c.maxDelay)
  {
    var before := Min(x, c.maxDelay);
    CapAfterBoth(before, x, c.maxDelay, c.multiplier, factors(k), before * c.multiplier, x * c.multiplier);
  }

  lemma {:induction false} NextDelayGrows(c: RetryConfig, draw: real, factors: nat -> real, k: nat, delay: real)
    requires c.Validated() && 0.0 <= draw < 1.0 && factors(k) == 1.0 + 0.1 * draw
    ensures NextDelay(c, delay, draw) == Min(Growth(c, factors)(k)(delay), c.maxDelay)
  {
    JitterIsScaling(delay * c.multiplier, c.maxDelay, draw, factors(k));
  }

  lemma {:induction false} ScheduleGrows(c: RetryConfig, draws: nat -> real, factors: nat -> real, k: nat)
    requires c.Validated() && Jitters(draws) && Factors(draws, factors)
    ensures Schedule(c, draws)(k + 1) == Min(Growth(c, factors)(k)(Schedule(c, draws)(k)), c.maxDelay)
  {
    assert factors(k) == 1.0 + 0.1 * draws(k);
    NextDelayGrows(c, draws(k), factors, k, Delay(c, draws, k));
  }

  /** The k-th sleep is exactly the uncapped delay, capped once: capping on the way changes nothing. */
  lemma {:induction false} SleepIsUncapped(c: RetryConfig, draws: nat -> real, factors: nat -> real, k: nat)
    requires c.Validated() && Jitters(draws) && Factors(draws, factors)
    ensures Schedule(c, draws)(k) == Min(Uncapped(Growth(c, factors), c.initialDelay, k), c.maxDelay)
  {
    if k > 0 {
      SleepIsUncapped(c, draws, factors, k - 1);
      ScheduleGrows(c, draws, factors, k - 1);
      assert factors(k - 1) == 1.0 + 0.1 * draws(k - 1);
      GrowthCapCommutes(c, factors, k - 1, Uncapped(Growth(c, factors), c.initialDelay, k - 1));
    }
  }

  /** Together the sleeps take at most `max_retries * max_delay` (see RepeatedIsProduct). */
  lemma {:induction false} TotalSleep(c: RetryConfig, draws: nat -> real, n: nat)
    requires c.Validated() && Jitters(draws) && n <= c.maxRetries
    ensures Total(Delays(c, draws, n)) <= Repeated(c.maxDelay, c.maxRetries)
  {
    forall k | 0 <= k < n ensures Delays(c, draws, n)[k] <= c.maxDelay {
      DelayInRange(c, draws, k);
    }
    SumBound(Delays(c, draws, n), c.maxDelay);
    RepeatedOrdered(c.maxDelay, n, c.maxRetries);
  }

  /** Sleeps never get shorter. */
  lemma {:induction false} DelaysOrdered(c: RetryConfig, draws: nat -> real, i: nat, j: nat)
    requires c.Validated() && Jitters(draws) && i <= j
    ensures Delay(c, draws, i) <= Delay(c, draws, j)
    decreases j - i
  {
    if i < j {
      DelaysOrdered(c, draws, i, j - 1);
      DelayInRange(c, draws, j - 1);
    }
  }

  function Repeated(x: real, n: nat): real { if n == 0 then 0.0 else Repeated(x, n - 1) + x }

  lemma {:induction false} RepeatedOrdered(x: real, n: nat, m: nat)
    requires x >= 0.0 && n <= m
    ensures Repeated(x, n) <= Repeated(x, m)
    decreases m
  {
    if n < m {
      RepeatedOrdered(x, n, m - 1);
    }
  }

  lemma {:induction false} RepeatedIsProduct(x: real, n: nat)
    ensures Repeated(x, n) == n as real * x
  {
    if n > 0 {
      RepeatedIsProduct(x, n - 1);
      var m := (n - 1) as real;
      assert (m + 1.0) * x == m * x + x;
    }
  }

  lemma {:induction false} SumBound(xs: seq<real>, cap: real)
    requires forall i :: 0 <= i < |xs| ==> xs[i] <= cap
    ensures Total(xs) <= Repeated(cap, |xs|)
  {
    if |xs| > 0 {
      SumBound(xs[..|xs| - 1], cap);
    }
  }

  lemma {:induction false} LaterDelaysCapped(c: RetryConfig, draws: nat -> real, k: nat)
    requires k > 0
    ensures Delay(c, draws, k) <= c.maxDelay
  {
    var base := Min(Delay(c, draws, k - 1) * c.multiplier, c.maxDelay);
    assert Min(base + base * (0.1 * draws(k - 1)), c.maxDelay) <= c.maxDelay;
  }

  /** Every sleep of every run respects the cap. */
  ghost predicate AlwaysCapped(c: RetryConfig) {
    forall draws, k: nat :: Jitters(draws) && k < c.maxRetries ==> Delay(c, draws, k) <= c.maxDelay
  }

  /** The cap holds for every sleep of every run exactly when the initial delay respects it or there are no retries. */
  lemma {:induction false} CapExactlyWhen(c: RetryConfig)
    requires c.Sensible()
    ensures AlwaysCapped(c) <==> (c.initialDelay <= c.maxDelay || c.maxRetries == 0)
  {
    if c.initialDelay <= c.maxDelay || c.maxRetries == 0 {
      forall draws, k: nat | Jitters(draws) && k < c.maxRetries ensures Delay(c, draws, k) <= c.maxDelay {
        if k > 0 {
          LaterDelaysCapped(c, draws, k);
        }
      }
    } else {
      var none: nat -> real := _ => 0.0;
      assert Jitters(none) && Delay(c, none, 0) > c.maxDelay;
    }
  }
}

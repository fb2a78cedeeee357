/** Sequential runs of `execute`: how many calls a failing service costs, and exactly when a healthy one is let back in. */
module BreakerRuns {
  import opened Arithmetic
  import opened CircuitBreakerSdk
  import opened Words

  /** One call of `execute`: when it was made, and when its operation ended if it was admitted. */
  datatype Attempt = Attempt(asked: nat, done: nat)

  /** Calls that do not overlap. */
  ghost predicate Sequential(run: seq<Attempt>) {
    && (forall i :: 0 <= i < |run| ==> run[i].asked <= run[i].done)
    && (forall i, j :: 0 <= i < j < |run| ==> run[i].done <= run[j].asked)
  }

  datatype Progress = Progress(breaker: Breaker, admitted: nat)

  function Call(c: BreakerConfig, p: Progress, a: Attempt, succeeds: bool): Progress {
    var (b, outcome) := Execute(c, p.breaker, a.asked, a.done, succeeds);
    Progress(b, p.admitted + if outcome == CircuitOpen then 0 else 1)
  }

  /** A run against an operation that always fails, or always succeeds. */
  function Run(c: BreakerConfig, p: Progress, run: seq<Attempt>, succeeds: bool): Progress {
    if |run| == 0 then p else Call(c, Run(c, p, run[..|run| - 1], succeeds), run[|run| - 1], succeeds)
  }

  // ---------------------------------------------------------------- a service that is down

  /** After the threshold each further admission is one timeout further on. */
  ghost predicate Paid(c: BreakerConfig, p: Progress, now: nat) {
    match p.breaker.mode
    case Closed => p.admitted == p.breaker.failures < c.failureThreshold
    case Open => p.admitted >= c.failureThreshold && (p.admitted - c.failureThreshold) * c.resetTimeout <= p.breaker.lastChange <= now
    case HalfOpen => false
  }

  lemma {:induction false} PayOne(c: BreakerConfig, p: Progress, a: Attempt, now: nat)
    requires c.Valid() && Paid(c, p, now) && now <= a.asked <= a.done
    ensures Paid(c, Call(c, p, a, false), a.done)
    ensures Call(c, p, a, false).admitted > c.failureThreshold && Call(c, p, a, false).admitted > p.admitted ==>
              (Call(c, p, a, false).admitted - c.failureThreshold) * c.resetTimeout <= a.asked
  {
    if p.breaker.mode == Open {
      var k := p.admitted - c.failureThreshold;
      assert (k + 1) * c.resetTimeout == k * c.resetTimeout + c.resetTimeout;
    }
  }

  lemma {:induction false} PayAll(c: BreakerConfig, run: seq<Attempt>)
    requires c.Valid() && Sequential(run)
    ensures Paid(c, Run(c, Progress(New(0), 0), run, false), if |run| == 0 then 0 else run[|run| - 1].done)
    ensures var n := Run(c, Progress(New(0), 0), run, false).admitted;
            n > c.failureThreshold ==> |run| > 0 && (n - c.failureThreshold) * c.resetTimeout <= run[|run| - 1].asked
  {
    if |run| > 0 {
      var before, last := run[..|run| - 1], run[|run| - 1];
      PayAll(c, before);
      PayOne(c, Run(c, Progress(New(0), 0), before, false), last, if |before| == 0 then 0 else before[|before| - 1].done);
    }
  }

  /** Against a service that always fails, calls admitted by time `t` number at most `failure_threshold + t / reset_timeout`. */
  lemma {:induction false} AdmissionBound(c: BreakerConfig, run: seq<Attempt>, t: nat)
    requires c.Valid() && c.resetTimeout > 0 && Sequential(run)
    requires forall i :: 0 <= i < |run| ==> run[i].asked <= t
    ensures Run(c, Progress(New(0), 0), run, false).admitted <= c.failureThreshold + t / c.resetTimeout
  {
    PayAll(c, run);
    QuotientBound(Run(c, Progress(New(0), 0), run, false).admitted, c.failureThreshold, c.resetTimeout, t);
  }

  lemma {:induction false} QuotientBound(n: nat, free: nat, d: nat, t: nat)
    requires d > 0 && (n > free ==> (n - free) * d <= t)
    ensures n <= free + t / d
  {
    if n > free {
      QuotientAtLeast(n - free, d, t);
    }
  }

  lemma {:induction false} QuotientAtLeast(k: nat, d: nat, t: nat)
    requires d > 0 && k * d <= t
    ensures k <= t / d
  {
    assert t == (t / d) * d + t % d;
    MultipleBeyond(k, t / d, d, t % d);
  }

  lemma {:induction false} MultipleBeyond(k: nat, q: nat, d: nat, r: nat)
    requires r < d
    ensures k > q ==> k * d > q * d + r
  {
    if k > q {
      MultiplyOrdered(q + 1, k, d);
      assert (q + 1) * d == q * d + d;
    }
  }

  /** `n` calls one timeout apart after the threshold has been used up at once. */
  function Persistent(c: BreakerConfig, n: nat): seq<Attempt> {
    seq(c.failureThreshold + n, i =>
      var k := if i < c.failureThreshold then 0 else i - c.failureThreshold + 1;
      Attempt(k * c.resetTimeout, k * c.resetTimeout))
  }

  lemma {:induction false} PersistentBurst(c: BreakerConfig, run: seq<Attempt>)
    requires c.Valid() && |run| <= c.failureThreshold
    requires forall i :: 0 <= i < |run| ==> run[i] == Attempt(0, 0)
    ensures var p := Run(c, Progress(New(0), 0), run, false);
            && p.admitted == |run| == p.breaker.failures
            && p.breaker.lastChange == 0
            && p.breaker.mode == (if |run| == c.failureThreshold then Open else Closed)
  {
    if |run| > 0 {
      PersistentBurst(c, run[..|run| - 1]);
    }
  }

  lemma {:induction false} PersistentRun(c: BreakerConfig, n: nat)
    requires c.Valid()
    ensures var p := Run(c, Progress(New(0), 0), Persistent(c, n), false);
            p.admitted == c.failureThreshold + n && p.breaker.mode == Open && p.breaker.lastChange == n * c.resetTimeout
  {
    var run := Persistent(c, n);
    if n == 0 {
      PersistentBurst(c, run);
    } else {
      PersistentRun(c, n - 1);
      assert run[..|run| - 1] == Persistent(c, n - 1);
      assert n * c.resetTimeout == (n - 1) * c.resetTimeout + c.resetTimeout;
    }
  }

  /** The bound is attained, for every number of timeouts. */
  lemma {:induction false} AdmissionBoundAttained(c: BreakerConfig, n: nat)
    requires c.Valid() && c.resetTimeout > 0
    ensures Sequential(Persistent(c, n))
    ensures forall i :: 0 <= i < |Persistent(c, n)| ==> Persistent(c, n)[i].asked <= n * c.resetTimeout
    ensures Run(c, Progress(New(0), 0), Persistent(c, n), false).admitted ==
            c.failureThreshold + (n * c.resetTimeout) / c.resetTimeout
  {
    PersistentRun(c, n);
    var run := Persistent(c, n);
    forall i, j | 0 <= i <= j < |run| ensures run[i].done <= run[j].asked {
      var a := if i < c.failureThreshold then 0 else i - c.failureThreshold + 1;
      var b := if j < c.failureThreshold then 0 else j - c.failureThreshold + 1;
      MultiplyOrdered(a, b, c.resetTimeout);
    }
    forall i | 0 <= i < |run| ensures run[i].asked <= n * c.resetTimeout {
      MultiplyOrdered(if i < c.failureThreshold then 0 else i - c.failureThreshold + 1, n, c.resetTimeout);
    }
    assert (n * c.resetTimeout) / c.resetTimeout == n by { ExactQuotient(n, c.resetTimeout); }
  }

  lemma {:induction false} ExactQuotient(n: nat, d: nat)
    requires d > 0
    ensures (n * d) / d == n
  {
    QuotientAtLeast(n, d, n * d);
  }

  // ---------------------------------------------------------------- a service that has recovered

  /** Open, nothing outstanding, and the timeout has passed when the first of `run` is made. */
  predicate Ready(c: BreakerConfig, b: Breaker, run: seq<Attempt>) {
    b.mode == Open && (|run| > 0 ==> Elapsed(b.lastChange, run[0].asked) >= c.resetTimeout)
  }

  /** The state after the first `n >= 1` calls of a recovery. */
  ghost predicate Recovering(c: BreakerConfig, b: Breaker, admitted: nat, n: nat) {
    var quota := c.halfOpenMaxRequests + 1;
    if c.successThreshold <= quota && n >= c.successThreshold then b.mode == Closed && admitted == n
    else if n <= quota then b.mode == HalfOpen && admitted == n && b.successes == n && b.halfOpenRequests == n - 1
    else b.mode == HalfOpen && admitted == quota && b.successes == quota && b.halfOpenRequests == c.halfOpenMaxRequests
  }

  lemma {:induction false} NextCall(c: BreakerConfig, p: Progress, n: nat, a: Attempt)
    requires c.Valid() && n >= 1 && Recovering(c, p.breaker, p.admitted, n)
    ensures var q := Call(c, p, a, true); Recovering(c, q.breaker, q.admitted, n + 1)
  {
  }

  lemma {:induction false} RecoveryRun(c: BreakerConfig, b: Breaker, run: seq<Attempt>)
    requires c.Valid() && |run| > 0 && Ready(c, b, run)
    ensures var p := Run(c, Progress(b, 0), run, true); Recovering(c, p.breaker, p.admitted, |run|)
  {
    if |run| > 1 {
      var before := run[..|run| - 1];
      assert before[0] == run[0];
      RecoveryRun(c, b, before);
      NextCall(c, Run(c, Progress(b, 0), before, true), |before|, run[|run| - 1]);
    } else {
      assert run[..0] == [];
    }
  }

  /** A recovered service closes the breaker after exactly `success_threshold` calls iff the half-open quota is large enough. */
  lemma {:induction false} RecoveryExactlyWhen(c: BreakerConfig, b: Breaker, run: seq<Attempt>)
    requires c.Valid() && Ready(c, b, run) && |run| == c.successThreshold
    ensures Run(c, Progress(b, 0), run, true).breaker.mode == Closed <==> c.successThreshold <= c.halfOpenMaxRequests + 1
    ensures forall n :: 0 < n < |run| ==> Run(c, Progress(b, 0), run[..n], true).breaker.mode == HalfOpen
  {
    RecoveryRun(c, b, run);
    forall n | 0 < n < |run| ensures Run(c, Progress(b, 0), run[..n], true).breaker.mode == HalfOpen {
      RecoveryRun(c, b, run[..n]);
    }
  }

  /** Otherwise exactly the quota is admitted, however long the run. */
  lemma {:induction false} QuotaThenNothing(c: BreakerConfig, b: Breaker, run: seq<Attempt>)
    requires c.Valid() && Ready(c, b, run) && c.successThreshold > c.halfOpenMaxRequests + 1
    requires |run| >= c.halfOpenMaxRequests + 1
    ensures var p := Run(c, Progress(b, 0), run, true);
            p.admitted == c.halfOpenMaxRequests + 1 && Stuck(c, p.breaker)
  {
    RecoveryRun(c, b, run);
  }

  /** The half-open quota is used up with nothing left to record a success. */
  predicate Stuck(c: BreakerConfig, b: Breaker) {
    b.mode == HalfOpen && b.halfOpenRequests >= c.halfOpenMaxRequests
  }

  /** A stuck breaker rejects every later call, whatever its operation would do and however long one waits. */
  lemma {:induction false} StuckForever(c: BreakerConfig, b: Breaker, run: seq<Attempt>, succeeds: seq<bool>)
    requires Stuck(c, b) && |succeeds| == |run|
    ensures MixedRun(c, b, run, succeeds) ==
            b.(metrics := b.metrics.(total := b.metrics.total + |run|, rejected := b.metrics.rejected + |run|))
  {
    if |run| > 0 {
      StuckForever(c, b, run[..|run| - 1], succeeds[..|run| - 1]);
    }
  }

  function MixedRun(c: BreakerConfig, b: Breaker, run: seq<Attempt>, succeeds: seq<bool>): Breaker
    requires |succeeds| == |run|
  {
    if |run| == 0 then b
    else
      var before := MixedRun(c, b, run[..|run| - 1], succeeds[..|run| - 1]);
      Execute(c, before, run[|run| - 1].asked, run[|run| - 1].done, succeeds[|run| - 1]).0
  }
}

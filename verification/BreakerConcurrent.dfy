/**
 * Any number of concurrent `execute` and `reset` calls on one breaker, interleaved between every two accesses to its
 * shared fields.  A call is the list of accesses it still has to make; making one may put others in front.
 */
module BreakerConcurrent {
  import opened Sequences
  import opened CircuitBreakerSdk
  import opened Words

  datatype Access =
    // execute: asking
    | CountTotal | ReadMode | TestElapsed | LockHalfOpen | LoadSlots | TakeSlot | CountRejected
    // execute: the operation itself, then recording how it ended
    | Operation | ReadAfterSuccess | ReadAfterFailure
    | AddSuccess | CountSuccessful | LoadSuccesses | LockClosed
    | AddFailure | CountFailed | LoadFailures | LockOpen
    // shared by the transitions and by reset
    | ClearFailures | ClearSuccesses | ClearSlots | Stamp | CountTransition | ForceClosed

  type Call = seq<Access>

  const EXECUTE_CALL: Call := [CountTotal]
  const RESET_CALL: Call := [ClearFailures, ClearSuccesses, ClearSlots, ForceClosed, Stamp]

  /**
   * `changes`, `openedAt` and `admitted` are history: mode changes not made by reset, when the breaker last opened, and
   * the requests admitted to the half-open episode that began when it last left Open.
   */
  datatype State = State(breaker: Breaker, calls: seq<Call>, changes: nat, openedAt: nat, admitted: nat, clock: nat)

  /** A call makes its next access at time `now`, or a new call begins. */
  datatype Step = Advance(i: nat, now: nat, succeeds: bool) | Begin(call: Call)

  predicate Enabled(s: State, step: Step) {
    match step
    case Advance(i, now, _) => i < |s.calls| && s.calls[i] != [] && s.clock <= now
    case Begin(call) => call == EXECUTE_CALL || call == RESET_CALL
  }

  /** The effect of one access: the breaker afterwards, and what the call has to do before the rest of its list. */
  function Perform(c: BreakerConfig, b: Breaker, access: Access, now: nat, succeeds: bool): (Breaker, Call) {
    var m := b.metrics;
    match access
    case CountTotal => (b.(metrics := m.(total := m.total + 1)), [ReadMode])
    case ReadMode =>
      (b, match b.mode case Closed => [Operation] case Open => [TestElapsed] case HalfOpen => [LoadSlots])
    case TestElapsed =>
      (b, if Elapsed(b.lastChange, now) >= c.resetTimeout then [LockHalfOpen, Operation] else [CountRejected])
    case LockHalfOpen =>
      if b.mode == Open then (b.(mode := HalfOpen), [ClearSlots, ClearSuccesses, Stamp, CountTransition]) else (b, [])
    case LoadSlots => (b, if b.halfOpenRequests < c.halfOpenMaxRequests then [TakeSlot, Operation] else [CountRejected])
    case TakeSlot => (b.(halfOpenRequests := Increment(b.halfOpenRequests)), [])
    case CountRejected => (b.(metrics := m.(rejected := m.rejected + 1)), [])
    case Operation => (b, if succeeds then [ReadAfterSuccess] else [ReadAfterFailure])
    case ReadAfterSuccess =>
      (b, [AddSuccess, CountSuccessful]
          + match b.mode case Closed => [ClearFailures] case HalfOpen => [LoadSuccesses] case Open => [])
    case ReadAfterFailure =>
      (b, [AddFailure, CountFailed]
          + match b.mode case Closed => [LoadFailures] case HalfOpen => [LockOpen] case Open => [])
    case AddSuccess => (b.(successes := Increment(b.successes)), [])
    case CountSuccessful => (b.(metrics := m.(successful := m.successful + 1)), [])
    case LoadSuccesses => (b, if b.successes >= c.successThreshold then [LockClosed] else [])
    case LockClosed =>
      if b.mode != Closed
      then (b.(mode := Closed), [ClearFailures, ClearSuccesses, ClearSlots, Stamp, CountTransition])
      else (b, [])
    case AddFailure => (b.(failures := Increment(b.failures)), [])
    case CountFailed => (b.(metrics := m.(failed := m.failed + 1)), [])
    case LoadFailures => (b, if b.failures >= c.failureThreshold then [LockOpen] else [])
    case LockOpen => if b.mode != Open then (b.(mode := Open), [Stamp, CountTransition]) else (b, [])
    case ClearFailures => (b.(failures := 0), [])
    case ClearSuccesses => (b.(successes := 0), [])
    case ClearSlots => (b.(halfOpenRequests := 0), [])
    case Stamp => (b.(lastChange := now), [])
    case CountTransition => (b.(metrics := m.(transitions := m.transitions + 1)), [])
    case ForceClosed => (b.(mode := Closed), [])
  }

  function Apply(c: BreakerConfig, s: State, step: Step): State
    requires Enabled(s, step)
  {
    match step
    case Begin(call) => s.(calls := s.calls + [call])
    case Advance(i, now, succeeds) =>
      var access := s.calls[i][0];
      var (b, first) := Perform(c, s.breaker, access, now, succeeds);
      State(b, s.calls[i := first + s.calls[i][1..]],
            s.changes + (if access != ForceClosed && b.mode != s.breaker.mode then 1 else 0),
            if s.breaker.mode != Open && b.mode == Open then now else s.openedAt,
            Admit(s.admitted, s.breaker.mode, access),
            now)
  }

  /** A request is admitted to an episode by finding it open, whether it starts it or comes late, or by taking a slot. */
  function Admit(admitted: nat, mode: Mode, access: Access): nat {
    match access
    case LockHalfOpen => if mode == Open then 1 else if mode == HalfOpen then admitted + 1 else admitted
    case TakeSlot => if mode == HalfOpen then admitted + 1 else admitted
    case _ => admitted
  }

  function Init(): State { State(New(0), [], 0, 0, 0, 0) }

  function Replay(c: BreakerConfig, s: State, steps: seq<Step>): State
    requires Runs(c, s, steps)
    decreases |steps|
  {
    if steps == [] then s else Replay(c, Apply(c, s, steps[0]), steps[1..])
  }

  predicate Runs(c: BreakerConfig, s: State, steps: seq<Step>)
    decreases |steps|
  {
    steps == [] || (Enabled(s, steps[0]) && Runs(c, Apply(c, s, steps[0]), steps[1..]))
  }

  ghost predicate Reachable(c: BreakerConfig, s: State) {
    exists steps :: Runs(c, Init(), steps) && Replay(c, Init(), steps) == s
  }

  lemma {:induction false} Extend(c: BreakerConfig, s: State, steps: seq<Step>, step: Step)
    requires Runs(c, s, steps) && Enabled(Replay(c, s, steps), step)
    ensures Runs(c, s, steps + [step])
    ensures Replay(c, s, steps + [step]) == Apply(c, Replay(c, s, steps), step)
    decreases |steps|
  {
    if steps == [] {
      assert [] + [step] == [step];
    } else {
      Extend(c, Apply(c, s, steps[0]), steps[1..], step);
      assert (steps + [step])[1..] == steps[1..] + [step];
    }
  }

  lemma {:induction false} ReachableStep(c: BreakerConfig, s: State, step: Step)
    requires Reachable(c, s) && Enabled(s, step)
    ensures Reachable(c, Apply(c, s, step))
  {
    var steps :| Runs(c, Init(), steps) && Replay(c, Init(), steps) == s;
    Extend(c, Init(), steps, step);
  }

  // ---------------------------------------------------------------- request accounting

  /** An access that stands for a counted request whose outcome is not yet in the metrics. */
  function Debt(a: Access): nat {
    match a
    case ReadMode => 1
    case TestElapsed => 1
    case LoadSlots => 1
    case CountRejected => 1
    case Operation => 1
    case ReadAfterSuccess => 1
    case ReadAfterFailure => 1
    case CountSuccessful => 1
    case CountFailed => 1
    case _ => 0
  }

  function Owed(call: Call): nat { Sum(call, Debt) }

  /** Requests counted in `total_requests` whose outcome is still open. */
  function Outstanding(s: State): nat { Sum(s.calls, Owed) }

  function Uncounted(a: Access): nat { if a == CountTransition then 1 else 0 }

  function UncountedIn(call: Call): nat { Sum(call, Uncounted) }

  /** Mode changes made whose metric is still to be written. */
  function Unwritten(s: State): nat { Sum(s.calls, UncountedIn) }

  ghost predicate Balanced(s: State) {
    var m := s.breaker.metrics;
    && m.total == m.successful + m.failed + m.rejected + Outstanding(s)
    && s.changes == m.transitions + Unwritten(s)
  }

  lemma {:induction false} SumAppend<T>(a: seq<T>, b: seq<T>, size: T -> nat)
    ensures Sum(a + b, size) == Sum(a, size) + Sum(b, size)
  {
    if b == [] {
      assert a + b == a;
    } else {
      SumAppend(a, b[..|b| - 1], size);
      assert (a + b)[..|a + b| - 1] == a + b[..|b| - 1];
    }
  }

  lemma {:induction false} SumUncons<T>(a: seq<T>, size: T -> nat)
    requires a != []
    ensures Sum(a, size) == size(a[0]) + Sum(a[1..], size)
  {
    SumAppend([a[0]], a[1..], size);
    assert a == [a[0]] + a[1..];
    assert [a[0]][..0] == [];
  }

  /** Reading the mode to record an outcome, and locking it to change it, put more than two accesses in front. */
  predicate Recording(a: Access) { a.ReadAfterSuccess? || a.ReadAfterFailure? }

  predicate Relocking(a: Access) { a.LockHalfOpen? || a.LockClosed? }

  /** What an access adds to a call's debts is what it takes out of the metrics' balance. */
  lemma {:induction false} PerformDebt(c: BreakerConfig, b: Breaker, a: Access, now: nat, succeeds: bool)
    ensures var (b', first) := Perform(c, b, a, now, succeeds);
            b'.metrics.total - b'.metrics.successful - b'.metrics.failed - b'.metrics.rejected - Owed(first) ==
            b.metrics.total - b.metrics.successful - b.metrics.failed - b.metrics.rejected - Debt(a)
  {
    if Recording(a) {
      RecordingDebt(c, b, a, now, succeeds);
    } else if Relocking(a) {
      RelockingDebt(c, b, a, now, succeeds);
    } else {
      SumSpelledShort(Perform(c, b, a, now, succeeds).1, Debt);
    }
  }

  lemma {:induction false} RecordingDebt(c: BreakerConfig, b: Breaker, a: Access, now: nat, succeeds: bool)
    requires Recording(a)
    ensures var (b', first) := Perform(c, b, a, now, succeeds); b' == b && Owed(first) == Debt(a)
  {
    RecordingSum(c, b, a, now, succeeds, Debt);
  }

  lemma {:induction false} RelockingDebt(c: BreakerConfig, b: Breaker, a: Access, now: nat, succeeds: bool)
    requires Relocking(a)
    ensures var (b', first) := Perform(c, b, a, now, succeeds); b'.metrics == b.metrics && Owed(first) == Debt(a)
  {
    RelockingSum(c, b, a, now, succeeds, Debt);
  }

  /** What an access adds to a call's uncounted mode changes, and what it writes of them. */
  lemma {:induction false} PerformUnwritten(c: BreakerConfig, b: Breaker, a: Access, now: nat, succeeds: bool)
    ensures var (b', first) := Perform(c, b, a, now, succeeds);
            b'.metrics.transitions + UncountedIn(first) ==
            b.metrics.transitions + Uncounted(a) + (if a != ForceClosed && b'.mode != b.mode then 1 else 0)
  {
    if Recording(a) {
      RecordingSum(c, b, a, now, succeeds, Uncounted);
    } else if Relocking(a) {
      RelockingSum(c, b, a, now, succeeds, Uncounted);
    } else {
      SumSpelledShort(Perform(c, b, a, now, succeeds).1, Uncounted);
    }
  }

  /** Any sum over what recording an outcome puts in front. */
  lemma {:induction false} RecordingSum(c: BreakerConfig, b: Breaker, a: Access, now: nat, succeeds: bool, size: Access -> nat)
    requires Recording(a)
    ensures var (b', first) := Perform(c, b, a, now, succeeds);
            && b' == b
            && Sum(first, size) ==
               (if a.ReadAfterSuccess? then size(AddSuccess) + size(CountSuccessful) else size(AddFailure) + size(CountFailed))
               + (match b.mode
                  case Closed => size(if a.ReadAfterSuccess? then ClearFailures else LoadFailures)
                  case HalfOpen => size(if a.ReadAfterSuccess? then LoadSuccesses else LockOpen)
                  case Open => 0)
  {
    ReadingSum(c, b, a, now, succeeds, size);
  }

  /** Any sum over what leaving a mode by its lock puts in front. */
  lemma {:induction false} RelockingSum(c: BreakerConfig, b: Breaker, a: Access, now: nat, succeeds: bool, size: Access -> nat)
    requires Relocking(a)
    ensures var (b', first) := Perform(c, b, a, now, succeeds);
            && b' == b.(mode := b'.mode)
            && Sum(first, size) ==
               if b'.mode == b.mode then 0
               else size(ClearSuccesses) + size(ClearSlots) + size(Stamp) + size(CountTransition)
                    + (if a.LockClosed? then size(ClearFailures) else 0)
  {
    if a.LockHalfOpen? {
      FourSum(ClearSlots, ClearSuccesses, Stamp, CountTransition, size);
    } else {
      FiveSum(ClearFailures, ClearSuccesses, ClearSlots, Stamp, CountTransition, size);
    }
  }

  lemma {:induction false} ReadingSum(c: BreakerConfig, b: Breaker, a: Access, now: nat, succeeds: bool, size: Access -> nat)
    requires Recording(a)
    ensures var first := Perform(c, b, a, now, succeeds).1;
            && 2 <= |first| <= 3
            && Sum(first, size) == size(first[0]) + size(first[1]) + (if |first| > 2 then size(first[2]) else 0)
  {
    var first := Perform(c, b, a, now, succeeds).1;
    SumUncons(first, size);
    SumSpelledShort(first[1..], size);
  }

  lemma {:induction false} FourSum(w: Access, x: Access, y: Access, z: Access, size: Access -> nat)
    ensures Sum([w, x, y, z], size) == size(w) + size(x) + size(y) + size(z)
  {
    SumAppend([w, x], [y, z], size);
    assert [w, x] + [y, z] == [w, x, y, z];
    SumSpelledShort([w, x], size);
    SumSpelledShort([y, z], size);
  }

  lemma {:induction false} FiveSum(v: Access, w: Access, x: Access, y: Access, z: Access, size: Access -> nat)
    ensures Sum([v, w, x, y, z], size) == size(v) + size(w) + size(x) + size(y) + size(z)
  {
    SumUncons([v, w, x, y, z], size);
    assert [v, w, x, y, z][1..] == [w, x, y, z];
    FourSum(w, x, y, z, size);
  }

  lemma {:induction false} SumSpelledShort(call: Call, size: Access -> nat)
    requires |call| <= 2
    ensures Sum(call, size) == (if |call| > 0 then size(call[0]) else 0) + (if |call| > 1 then size(call[1]) else 0)
  {
    if |call| > 0 { SumUncons(call, size); }
    if |call| > 1 { SumUncons(call[1..], size); }
  }

  lemma {:induction false} AccessBalanced(c: BreakerConfig, s: State, i: nat, now: nat, succeeds: bool)
    requires Balanced(s) && Enabled(s, Advance(i, now, succeeds))
    ensures Balanced(Apply(c, s, Advance(i, now, succeeds)))
  {
    var call := s.calls[i];
    var (b, first) := Perform(c, s.breaker, call[0], now, succeeds);
    PerformDebt(c, s.breaker, call[0], now, succeeds);
    PerformUnwritten(c, s.breaker, call[0], now, succeeds);
    SumUncons(call, Debt);
    SumUncons(call, Uncounted);
    SumAppend(first, call[1..], Debt);
    SumAppend(first, call[1..], Uncounted);
    SumUpdate(s.calls, i, first + call[1..], Owed);
    SumUpdate(s.calls, i, first + call[1..], UncountedIn);
  }

  lemma {:induction false} BeginsClean(call: Call)
    requires call == EXECUTE_CALL || call == RESET_CALL
    ensures Owed(call) == 0 && UncountedIn(call) == 0
  {
    SumOfNothing(call, Debt);
    SumOfNothing(call, Uncounted);
  }

  lemma {:induction false} BeginBalanced(c: BreakerConfig, s: State, call: Call)
    requires Balanced(s) && Enabled(s, Begin(call))
    ensures Balanced(Apply(c, s, Begin(call)))
  {
    BeginsClean(call);
    assert (s.calls + [call])[..|s.calls|] == s.calls;
  }

  lemma {:induction false} RunBalanced(c: BreakerConfig, s: State, steps: seq<Step>)
    requires Balanced(s) && Runs(c, s, steps)
    ensures Balanced(Replay(c, s, steps))
    decreases |steps|
  {
    if steps != [] {
      match steps[0] {
        case Advance(i, now, succeeds) => AccessBalanced(c, s, i, now, succeeds);
        case Begin(call) => BeginBalanced(c, s, call);
      }
      RunBalanced(c, Apply(c, s, steps[0]), steps[1..]);
    }
  }

  /** At every instant, total = successful + failed + rejected + outstanding, and every mode change is counted or about to be. */
  lemma {:induction false} RequestAccounting(c: BreakerConfig, s: State)
    requires Reachable(c, s)
    ensures var m := s.breaker.metrics; m.total == m.successful + m.failed + m.rejected + Outstanding(s)
    ensures s.changes == s.breaker.metrics.transitions + Unwritten(s)
  {
    var steps :| Runs(c, Init(), steps) && Replay(c, Init(), steps) == s;
    RunBalanced(c, Init(), steps);
  }

  /** With no call in progress the metrics are exact. */
  lemma {:induction false} AtRest(c: BreakerConfig, s: State)
    requires Reachable(c, s) && forall i :: 0 <= i < |s.calls| ==> s.calls[i] == []
    ensures var m := s.breaker.metrics; m.total == m.successful + m.failed + m.rejected && m.transitions == s.changes
  {
    RequestAccounting(c, s);
    SumOfNothing(s.calls, Owed);
    SumOfNothing(s.calls, UncountedIn);
  }

  // ---------------------------------------------------------------- when the timeout test can be trusted

  /** Some call has changed the mode, or is resetting, and has not yet written the time. */
  ghost predicate StampPending(s: State) { exists i :: 0 <= i < |s.calls| && Stamp in s.calls[i] }

  ghost predicate Timely(s: State) {
    && s.breaker.lastChange <= s.clock && s.openedAt <= s.clock
    && (s.openedAt <= s.breaker.lastChange || StampPending(s))
  }

  lemma {:induction false} StepTimely(c: BreakerConfig, s: State, step: Step)
    requires Timely(s) && Enabled(s, step)
    ensures Timely(Apply(c, s, step))
  {
    var t := Apply(c, s, step);
    match step
    case Begin(call) =>
      if StampPending(s) {
        var i :| 0 <= i < |s.calls| && Stamp in s.calls[i];
        assert t.calls[i] == s.calls[i];
      }
    case Advance(i, now, succeeds) =>
      var access, rest := s.calls[i][0], s.calls[i][1..];
      assert s.calls[i] == [access] + rest;
      if access == Stamp {
      } else if access == LockOpen && s.breaker.mode != Open {
        assert Stamp in t.calls[i];
      } else if StampPending(s) {
        var j :| 0 <= j < |s.calls| && Stamp in s.calls[j];
        assert Stamp in t.calls[j];
      }
  }

  lemma {:induction false} RunTimely(c: BreakerConfig, s: State, steps: seq<Step>)
    requires Timely(s) && Runs(c, s, steps)
    ensures Timely(Replay(c, s, steps))
    decreases |steps|
  {
    if steps != [] {
      StepTimely(c, s, steps[0]);
      RunTimely(c, Apply(c, s, steps[0]), steps[1..]);
    }
  }

  /**
   * A timeout test that passes while no stamp is pending passes at least `reset_timeout` after the breaker opened.  This
   * is about the test: the breaker may open again before the request it lets through takes it out of Open.
   */
  lemma {:induction false} TestIsRight(c: BreakerConfig, s: State, i: nat, now: nat)
    requires Reachable(c, s) && Enabled(s, Advance(i, now, true)) && s.calls[i][0] == TestElapsed
    requires !StampPending(s)
    ensures Perform(c, s.breaker, TestElapsed, now, true).1 == [LockHalfOpen, Operation] ==> now - s.openedAt >= c.resetTimeout
  {
    var steps :| Runs(c, Init(), steps) && Replay(c, Init(), steps) == s;
    RunTimely(c, Init(), steps);
  }
}

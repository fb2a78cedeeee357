/**
 * What interleaving breaks, in every configuration, and what it takes to keep it: the timeout before a request leaves
 * Open, and the quota of a half-open episode.
 */
module BreakerRaces {
  import opened Words
  import opened CircuitBreakerSdk
  import opened BreakerConcurrent
  import opened BreakerCalls

  /** The step takes the breaker out of Open less than the reset timeout after it opened. */
  predicate LeavesEarly(c: BreakerConfig, s: State, step: Step) {
    && Enabled(s, step) && step.Advance?
    && s.breaker.mode == Open && Apply(c, s, step).breaker.mode == HalfOpen
    && step.now - s.openedAt < c.resetTimeout
  }

  predicate Idle(s: State) { forall i :: 0 <= i < |s.calls| ==> s.calls[i] == [] }

  lemma {:induction false} ReachableInit(c: BreakerConfig)
    ensures Reachable(c, Init())
  {
    assert Runs(c, Init(), []) && Replay(c, Init(), []) == Init();
  }

  // ---------------------------------------------------------------- opening the breaker

  /** `n` failures, one call after the other, all at time `at`. */
  lemma {:induction false} Failures(c: BreakerConfig, n: nat, at: nat) returns (s: State)
    requires c.Valid() && n < c.failureThreshold
    ensures Reachable(c, s) && Idle(s) && s.clock <= at
    ensures s.breaker.mode == Closed && s.breaker.failures == n && s.breaker.lastChange == 0
  {
    if n == 0 {
      ReachableInit(c);
      s := Init();
    } else {
      var before := Failures(c, n - 1, at);
      var mid;
      mid, s := ExecuteAlone(c, before, at, at, false);
    }
  }

  lemma {:induction false} Opened(c: BreakerConfig) returns (s: State)
    requires c.Valid()
    ensures Reachable(c, s) && Idle(s) && s.clock == 0
    ensures s.breaker.mode == Open && s.breaker.lastChange == 0
  {
    var before := Failures(c, c.failureThreshold - 1, 0);
    var mid;
    mid, s := ExecuteAlone(c, before, 0, 0, false);
  }

  /** A request comes in, finds the breaker Open, and passes the timeout test. */
  lemma {:induction false} PassesTheTest(c: BreakerConfig, s: State, now: nat) returns (t: State)
    requires Reachable(c, s) && s.breaker.mode == Open && s.clock <= now
    requires Elapsed(s.breaker.lastChange, now) >= c.resetTimeout
    ensures Reachable(c, t) && t.clock == now && t.calls == s.calls + [[LockHalfOpen, Operation]]
    ensures t.breaker.mode == Open && t.breaker.lastChange == s.breaker.lastChange && t.openedAt == s.openedAt
  {
    ReachableStep(c, s, Begin(EXECUTE_CALL));
    t := Apply(c, s, Begin(EXECUTE_CALL));
    t := LastMoves(c, t, s.calls, CountTotal, now, [ReadMode]);
    t := LastMoves(c, t, s.calls, ReadMode, now, [TestElapsed]);
    t := LastMoves(c, t, s.calls, TestElapsed, now, [LockHalfOpen, Operation]);
  }

  /** The latest call makes its next access. */
  lemma {:induction false} LastMoves(c: BreakerConfig, s: State, before: seq<Call>, a: Access, now: nat, first: Call)
    returns (t: State)
    requires Reachable(c, s) && s.calls == before + [[a]] && s.clock <= now
    requires Perform(c, s.breaker, a, now, true).1 == first
    ensures Reachable(c, t) && t.clock == now && t.calls == before + [first]
    ensures t.breaker == Perform(c, s.breaker, a, now, true).0
    ensures t.breaker.mode == s.breaker.mode ==> t.openedAt == s.openedAt
  {
    var step := Advance(|before|, now, true);
    assert first + [a][1..] == first;
    ReachableStep(c, s, step);
    t := Apply(c, s, step);
  }

  // ---------------------------------------------------------------- leaving Open early

  /** The last failure at time `at` has opened the breaker and has not yet written the time. */
  lemma {:induction false} OpenedUnstamped(c: BreakerConfig, at: nat) returns (s: State)
    requires c.Valid()
    ensures Reachable(c, s) && s.clock == at && s.openedAt == at
    ensures s.breaker.mode == Open && s.breaker.lastChange == 0
  {
    var before := Failures(c, c.failureThreshold - 1, at);
    var mid, _ := ExecuteAlone(c, before, at, at, false);
    s := FailsUnstamped(c, mid, |before.calls|, at);
  }

  lemma {:induction false} FailsUnstamped(c: BreakerConfig, s: State, i: nat, at: nat) returns (t: State)
    requires c.Valid() && Reachable(c, s) && i < |s.calls| && s.calls[i] == [Operation] && s.clock <= at
    requires s.breaker.mode == Closed && s.breaker.failures == c.failureThreshold - 1 && s.breaker.lastChange == 0
    ensures Reachable(c, t) && t.clock == at && t.openedAt == at
    ensures t.breaker.mode == Open && t.breaker.lastChange == 0
  {
    var step := Advance(i, at, false);
    ReachableStep(c, s, step);
    var s1 := Apply(c, s, step);
    assert s1.calls[i] == [ReadAfterFailure];
    ReachableStep(c, s1, step);
    var s2 := Apply(c, s1, step);
    assert s2.calls[i] == [AddFailure, CountFailed, LoadFailures];
    t := CountsAndOpens(c, s2, i, at);
  }

  lemma {:induction false} CountsAndOpens(c: BreakerConfig, s: State, i: nat, at: nat) returns (t: State)
    requires c.Valid() && Reachable(c, s) && i < |s.calls| && s.clock <= at
    requires s.calls[i] == [AddFailure, CountFailed, LoadFailures]
    requires s.breaker.mode == Closed && s.breaker.failures == c.failureThreshold - 1 && s.breaker.lastChange == 0
    ensures Reachable(c, t) && t.clock == at && t.openedAt == at
    ensures t.breaker.mode == Open && t.breaker.lastChange == 0
  {
    var step := Advance(i, at, false);
    ReachableStep(c, s, step);
    var s1 := Apply(c, s, step);
    assert s1.calls[i] == [CountFailed, LoadFailures];
    ReachableStep(c, s1, step);
    var s2 := Apply(c, s1, step);
    assert s2.calls[i] == [LoadFailures];
    t := OpensUnstamped(c, s2, i, at);
  }

  lemma {:induction false} OpensUnstamped(c: BreakerConfig, s: State, i: nat, at: nat) returns (t: State)
    requires Reachable(c, s) && i < |s.calls| && s.calls[i] == [LoadFailures] && s.clock <= at
    requires s.breaker.mode == Closed && s.breaker.failures >= c.failureThreshold && s.breaker.lastChange == 0
    ensures Reachable(c, t) && t.clock == at && t.openedAt == at
    ensures t.breaker.mode == Open && t.breaker.lastChange == 0
  {
    var step := Advance(i, at, false);
    ReachableStep(c, s, step);
    var s1 := Apply(c, s, step);
    assert s1.calls[i] == [LockOpen];
    ReachableStep(c, s1, step);
    t := Apply(c, s1, step);
  }

  /** Opening writes the mode before the time, so a request in between measures the timeout from the previous change. */
  lemma {:induction false} EarlyAdmission(c: BreakerConfig) returns (s: State, step: Step)
    requires c.Valid() && c.resetTimeout > 0
    ensures Reachable(c, s) && LeavesEarly(c, s, step)
    ensures step.now == s.openedAt
  {
    var before := OpenedUnstamped(c, c.resetTimeout);
    s := PassesTheTest(c, before, c.resetTimeout);
    step := Advance(|before.calls|, c.resetTimeout, true);
  }

  /** Some interleaving lets a request leave Open early in every configuration but those whose timeout is 0. */
  lemma {:induction false} LeavesEarlyExactlyWhen(c: BreakerConfig)
    requires c.Valid()
    ensures (exists s, step :: Reachable(c, s) && LeavesEarly(c, s, step)) <==> c.resetTimeout > 0
  {
    if c.resetTimeout > 0 {
      var s, step := EarlyAdmission(c);
    } else {
      forall s, step | Reachable(c, s) ensures !LeavesEarly(c, s, step) {
        var steps :| Runs(c, Init(), steps) && Replay(c, Init(), steps) == s;
        RunTimely(c, Init(), steps);
      }
    }
  }

  // ---------------------------------------------------------------- more than the quota

  /** `n` requests have passed the test before the first of them changes the mode. */
  lemma {:induction false} Waiting(c: BreakerConfig, n: nat) returns (s: State, first: nat)
    requires c.Valid()
    ensures Reachable(c, s) && s.breaker.mode == Open && s.clock <= c.resetTimeout && s.breaker.lastChange == 0
    ensures |s.calls| == first + n
    ensures forall i :: first <= i < |s.calls| ==> s.calls[i] == [LockHalfOpen, Operation]
  {
    if n == 0 {
      s := Opened(c);
      first := |s.calls|;
    } else {
      var before;
      before, first := Waiting(c, n - 1);
      s := PassesTheTest(c, before, c.resetTimeout);
    }
  }

  /** `done` of them have changed the mode, or found it changed. */
  lemma {:induction false} LockAll(c: BreakerConfig, n: nat, done: nat) returns (s: State, first: nat)
    requires c.Valid() && 1 <= done <= n
    ensures Reachable(c, s) && s.breaker.mode == HalfOpen && s.admitted == done && s.clock <= c.resetTimeout
    ensures |s.calls| == first + n
    ensures forall i :: first + done <= i < |s.calls| ==> s.calls[i] == [LockHalfOpen, Operation]
  {
    var before;
    if done == 1 {
      before, first := Waiting(c, n);
    } else {
      before, first := LockAll(c, n, done - 1);
    }
    var step := Advance(first + done - 1, c.resetTimeout, true);
    ReachableStep(c, before, step);
    s := Apply(c, before, step);
  }

  /** In every configuration, and for every `n`, `n` overlapping requests can all be admitted to one half-open episode. */
  lemma {:induction false} OverAdmission(c: BreakerConfig, n: nat) returns (s: State)
    requires c.Valid() && n >= 1
    ensures Reachable(c, s) && s.breaker.mode == HalfOpen && s.admitted == n
  {
    var first;
    s, first := LockAll(c, n, n);
  }

  /** So under interleaving no configuration keeps its quota, nor any other bound. */
  lemma {:induction false} QuotaNeverHolds(c: BreakerConfig, bound: nat)
    requires c.Valid()
    ensures exists s :: Reachable(c, s) && s.breaker.mode == HalfOpen && s.admitted > bound
  {
    var s := OverAdmission(c, bound + 1);
  }

  // ---------------------------------------------------------------- methods that do not interleave

  /** A call between two methods of the breaker: not begun, in its operation, about to record its outcome, or over. */
  predicate Resting(call: Call) {
    call in {[], EXECUTE_CALL, RESET_CALL, [Operation], [ReadAfterSuccess], [ReadAfterFailure]}
  }

  /** Nobody but `i` is inside a method. */
  predicate OthersRest(s: State, i: nat) { forall j :: 0 <= j < |s.calls| && j != i ==> Resting(s.calls[j]) }

  /**
   * A run in which `allow_request`, `record_success`, `record_failure` and `reset` never interleave, as when callers
   * hold a lock around each of them.  Operations may overlap in any way.
   */
  predicate Orderly(c: BreakerConfig, s: State, steps: seq<Step>)
    decreases |steps|
  {
    steps == []
    || (Enabled(s, steps[0])
        && (steps[0].Advance? ==> OthersRest(s, steps[0].i))
        && Orderly(c, Apply(c, s, steps[0]), steps[1..]))
  }

  lemma {:induction false} OrderlyRuns(c: BreakerConfig, s: State, steps: seq<Step>)
    requires Orderly(c, s, steps)
    ensures Runs(c, s, steps)
    decreases |steps|
  {
    if steps != [] {
      OrderlyRuns(c, Apply(c, s, steps[0]), steps[1..]);
    }
  }

  /** Calls that begin only when the previous one is over make an orderly run. */
  predicate Sequential(c: BreakerConfig, s: State, steps: seq<Step>)
    decreases |steps|
  {
    steps == []
    || (Enabled(s, steps[0])
        && (steps[0].Begin? ==> Idle(s))
        && Sequential(c, Apply(c, s, steps[0]), steps[1..]))
  }

  lemma {:induction false} SequentialIsOrderly(c: BreakerConfig, s: State, steps: seq<Step>, i: nat)
    requires Sequential(c, s, steps)
    requires forall j :: 0 <= j < |s.calls| && j != i ==> s.calls[j] == []
    ensures Orderly(c, s, steps)
    decreases |steps|
  {
    if steps != [] {
      var t := Apply(c, s, steps[0]);
      SequentialIsOrderly(c, t, steps[1..], if steps[0].Begin? then |s.calls| else steps[0].i);
    }
  }

  predicate Deciding(a: Access) { a in {CountTotal, ReadMode, TestElapsed, LockHalfOpen, LoadSlots, TakeSlot} }

  /** Nothing left to do that belongs to deciding on a request; a reset under way has only clearing to do. */
  predicate Decided(call: Call) {
    && (forall a :: a in call ==> !Deciding(a))
    && (ForceClosed in call ==> forall a :: a in call ==> a in {ClearSuccesses, ClearSlots, ForceClosed, Stamp})
  }

  /** Where the call inside a method is, with what it has found out still true. */
  predicate Placed(c: BreakerConfig, s: State, call: Call) {
    var b := s.breaker;
    || Decided(call)
    || call == [ReadMode]
    || (call == [TestElapsed] && b.mode == Open)
    || (call == [LockHalfOpen, Operation] && b.mode == Open && s.clock - s.openedAt >= c.resetTimeout)
    || (call == [LoadSlots] && b.mode == HalfOpen)
    || (call == [TakeSlot, Operation] && b.mode == HalfOpen && b.halfOpenRequests < c.halfOpenMaxRequests)
  }

  /** The slot counter is one behind the admissions, except while someone is clearing it. */
  predicate Slotted(c: BreakerConfig, s: State, call: Call) {
    s.breaker.mode == HalfOpen ==>
      && s.admitted <= c.halfOpenMaxRequests + 1
      && (ForceClosed in call
          || s.admitted == if ClearSlots in call then 1 else s.breaker.halfOpenRequests + 1)
  }

  /** What holds with `call` the one inside a method, or with nobody there when it is empty. */
  predicate Kept(c: BreakerConfig, s: State, call: Call) {
    && s.breaker.lastChange <= s.clock && s.openedAt <= s.clock
    && (Stamp !in call ==> s.openedAt <= s.breaker.lastChange)
    && Placed(c, s, call) && Slotted(c, s, call)
  }

  function Inside(call: Call): Call { if Resting(call) then [] else call }

  /** At most call `i` is inside a method. */
  predicate Calm(c: BreakerConfig, s: State, i: nat) {
    OthersRest(s, i) && Kept(c, s, if i < |s.calls| then Inside(s.calls[i]) else [])
  }

  /** Being between two methods asks for no more than not being in the list at all. */
  lemma {:induction false} KeptInside(c: BreakerConfig, s: State, call: Call)
    requires Kept(c, s, call)
    ensures Kept(c, s, Inside(call))
  {
    ResetUndecided();
  }

  lemma {:induction false} ResetUndecided()
    ensures !Decided(RESET_CALL)
  {
    assert RESET_CALL[0] == ClearFailures && RESET_CALL[3] == ForceClosed;
    assert ClearFailures in RESET_CALL && ForceClosed in RESET_CALL;
  }

  /** Whoever is about to take the breaker out of Open has waited long enough. */
  lemma {:induction false} LockIsDue(c: BreakerConfig, s: State, call: Call)
    requires Kept(c, s, Inside(call)) && call != [] && call[0] == LockHalfOpen
    ensures s.clock - s.openedAt >= c.resetTimeout
  {
    assert LockHalfOpen in call;
  }

  lemma {:induction false} Split(call: Call, first: Call)
    requires call != []
    ensures forall a :: a in call <==> a == call[0] || a in call[1..]
    ensures forall a :: a in first + call[1..] <==> a in first || a in call[1..]
  {
    assert call == [call[0]] + call[1..];
  }

  lemma {:induction false} DecidedAfter(call: Call, first: Call)
    requires call != [] && Decided(call)
    requires forall a :: a in first ==> !Deciding(a) && a != ForceClosed
    requires ForceClosed in call ==> first == []
    ensures Decided(first + call[1..])
  {
    Split(call, first);
  }

  /** Accesses that leave the mode, the time and the slots alone. */
  predicate Neutral(a: Access) {
    || a.Operation? || a.LoadSuccesses? || a.LoadFailures? || a.CountRejected? || a.AddSuccess? || a.AddFailure?
    || a.CountSuccessful? || a.CountFailed? || a.ClearFailures? || a.ClearSuccesses? || a.CountTransition?
  }

  lemma {:induction false} NeutralAccess(c: BreakerConfig, s: State, i: nat, now: nat, succeeds: bool)
    requires Enabled(s, Advance(i, now, succeeds)) && Neutral(s.calls[i][0])
    requires Decided(s.calls[i]) && Kept(c, s, s.calls[i])
    ensures var t := Apply(c, s, Advance(i, now, succeeds)); Kept(c, t, t.calls[i])
  {
    var call, first := s.calls[i], Perform(c, s.breaker, s.calls[i][0], now, succeeds).1;
    Split(call, first);
    assert call[0] in call;
    DecidedAfter(call, first);
    assert Apply(c, s, Advance(i, now, succeeds)).calls[i] == first + call[1..];
  }

  lemma {:induction false} WritingAccess(c: BreakerConfig, s: State, i: nat, now: nat, succeeds: bool)
    requires Enabled(s, Advance(i, now, succeeds)) && s.calls[i][0] in {ClearSlots, Stamp, ForceClosed}
    requires Decided(s.calls[i]) && Kept(c, s, s.calls[i])
    ensures var t := Apply(c, s, Advance(i, now, succeeds)); Kept(c, t, t.calls[i])
  {
    var call := s.calls[i];
    Split(call, []);
    DecidedAfter(call, []);
    assert Apply(c, s, Advance(i, now, succeeds)).calls[i] == [] + call[1..];
  }

  lemma {:induction false} LockingAccess(c: BreakerConfig, s: State, i: nat, now: nat, succeeds: bool)
    requires Enabled(s, Advance(i, now, succeeds)) && s.calls[i][0] in {LockOpen, LockClosed}
    requires Decided(s.calls[i]) && Kept(c, s, s.calls[i])
    ensures var t := Apply(c, s, Advance(i, now, succeeds)); Kept(c, t, t.calls[i])
  {
    var call, first := s.calls[i], Perform(c, s.breaker, s.calls[i][0], now, succeeds).1;
    Split(call, first);
    assert call[0] in call;
    DecidedAfter(call, first);
    assert Apply(c, s, Advance(i, now, succeeds)).calls[i] == first + call[1..];
    assert first != [] ==> Stamp in first;
  }

  lemma {:induction false} ReadingAccess(c: BreakerConfig, s: State, i: nat, now: nat, succeeds: bool)
    requires Enabled(s, Advance(i, now, succeeds)) && Recording(s.calls[i][0])
    requires Decided(s.calls[i]) && Kept(c, s, s.calls[i])
    ensures var t := Apply(c, s, Advance(i, now, succeeds)); Kept(c, t, t.calls[i])
  {
    var call, first := s.calls[i], Perform(c, s.breaker, s.calls[i][0], now, succeeds).1;
    Split(call, first);
    assert call[0] in call;
    DecidedAfter(call, first);
    assert Apply(c, s, Advance(i, now, succeeds)).calls[i] == first + call[1..];
  }

  lemma {:induction false} DecidingAccess(c: BreakerConfig, s: State, i: nat, now: nat, succeeds: bool)
    requires c.Valid() && Enabled(s, Advance(i, now, succeeds)) && !Decided(s.calls[i])
    requires Kept(c, s, s.calls[i])
    ensures var t := Apply(c, s, Advance(i, now, succeeds)); Kept(c, t, t.calls[i])
  {
  }

  lemma {:induction false} FirstAccess(c: BreakerConfig, s: State, i: nat, now: nat, succeeds: bool)
    requires Enabled(s, Advance(i, now, succeeds)) && s.calls[i] in {EXECUTE_CALL, RESET_CALL}
    requires Kept(c, s, [])
    ensures var t := Apply(c, s, Advance(i, now, succeeds)); Kept(c, t, t.calls[i])
  {
    if s.calls[i] == RESET_CALL {
      assert RESET_CALL[1..] == [ClearSuccesses, ClearSlots, ForceClosed, Stamp];
      assert RESET_CALL[1..][2] == ForceClosed && RESET_CALL[1..][3] == Stamp;
    }
  }

  lemma {:induction false} DecidedAccess(c: BreakerConfig, s: State, i: nat, now: nat, succeeds: bool)
    requires Enabled(s, Advance(i, now, succeeds)) && Decided(s.calls[i]) && Kept(c, s, s.calls[i])
    ensures var t := Apply(c, s, Advance(i, now, succeeds)); Kept(c, t, t.calls[i])
  {
    var a := s.calls[i][0];
    assert a in s.calls[i] && !Deciding(a);
    if Neutral(a) {
      NeutralAccess(c, s, i, now, succeeds);
    } else if a in {ClearSlots, Stamp, ForceClosed} {
      WritingAccess(c, s, i, now, succeeds);
    } else if a in {LockOpen, LockClosed} {
      LockingAccess(c, s, i, now, succeeds);
    } else if Recording(a) {
      ReadingAccess(c, s, i, now, succeeds);
    }
  }

  lemma {:induction false} AccessKept(c: BreakerConfig, s: State, i: nat, now: nat, succeeds: bool)
    requires c.Valid() && Enabled(s, Advance(i, now, succeeds)) && Kept(c, s, Inside(s.calls[i]))
    ensures var t := Apply(c, s, Advance(i, now, succeeds)); Kept(c, t, Inside(t.calls[i]))
  {
    var call := s.calls[i];
    if call in {EXECUTE_CALL, RESET_CALL} {
      FirstAccess(c, s, i, now, succeeds);
    } else {
      assert Kept(c, s, call);
      if !Decided(call) {
        DecidingAccess(c, s, i, now, succeeds);
      } else {
        DecidedAccess(c, s, i, now, succeeds);
      }
    }
    var t := Apply(c, s, Advance(i, now, succeeds));
    KeptInside(c, t, t.calls[i]);
  }

  lemma {:induction false} AccessCalm(c: BreakerConfig, s: State, i: nat, now: nat, succeeds: bool)
    requires c.Valid() && Calm(c, s, i) && Enabled(s, Advance(i, now, succeeds))
    ensures Calm(c, Apply(c, s, Advance(i, now, succeeds)), i)
  {
    AccessKept(c, s, i, now, succeeds);
  }

  lemma {:induction false} BeginCalm(c: BreakerConfig, s: State, i: nat, call: Call)
    requires Calm(c, s, i) && Enabled(s, Begin(call))
    ensures Calm(c, Apply(c, s, Begin(call)), i)
  {
  }

  lemma {:induction false} OrderlyCalm(c: BreakerConfig, s: State, i: nat, steps: seq<Step>) returns (j: nat)
    requires c.Valid() && Calm(c, s, i) && Orderly(c, s, steps) && Runs(c, s, steps)
    ensures Calm(c, Replay(c, s, steps), j)
    decreases |steps|
  {
    if steps == [] {
      j := i;
    } else {
      var k := i;
      match steps[0] {
        case Advance(mover, now, succeeds) =>
          k := mover;
          AccessCalm(c, s, k, now, succeeds);
        case Begin(call) => BeginCalm(c, s, i, call);
      }
      j := OrderlyCalm(c, Apply(c, s, steps[0]), k, steps[1..]);
    }
  }

  /** With no two methods interleaved, no request leaves Open early. */
  lemma {:induction false} OrderlyNeverEarly(c: BreakerConfig, steps: seq<Step>, step: Step)
    requires c.Valid() && Orderly(c, Init(), steps)
    ensures Runs(c, Init(), steps)
    ensures var s := Replay(c, Init(), steps);
            LeavesEarly(c, s, step) ==> !OthersRest(s, step.i)
  {
    OrderlyRuns(c, Init(), steps);
    var s := Replay(c, Init(), steps);
    var i := OrderlyCalm(c, Init(), 0, steps);
    if LeavesEarly(c, s, step) && OthersRest(s, step.i) {
      LockIsDue(c, s, s.calls[step.i]);
    }
  }

  /** With no two methods interleaved, no half-open episode admits more than the quota plus one. */
  lemma {:induction false} OrderlyKeepsQuota(c: BreakerConfig, steps: seq<Step>)
    requires c.Valid() && Orderly(c, Init(), steps)
    ensures Runs(c, Init(), steps)
    ensures var s := Replay(c, Init(), steps); s.breaker.mode == HalfOpen ==> s.admitted <= c.halfOpenMaxRequests + 1
  {
    OrderlyRuns(c, Init(), steps);
    var i := OrderlyCalm(c, Init(), 0, steps);
  }
}

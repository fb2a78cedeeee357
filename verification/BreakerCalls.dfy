/** A call whose accesses no other call interrupts does what the whole methods do. */
module BreakerCalls {
  import opened Sequences
  import opened CircuitBreakerSdk
  import opened BreakerConcurrent
  import opened Words

  /** How many accesses a call has left at the most, from each of those it lists. */
  function Weight(a: Access): (w: nat)
    ensures w >= 1
  {
    match a
    case CountTotal => 19
    case ReadMode => 18
    case TestElapsed => 17
    case LoadSlots => 13
    case Operation => 11
    case ReadAfterSuccess => 10
    case ReadAfterFailure => 7
    case LoadSuccesses => 7
    case LockClosed => 6
    case LockHalfOpen => 5
    case LoadFailures => 4
    case LockOpen => 3
    case _ => 1
  }

  function Left(call: Call): nat { Sum(call, Weight) }

  lemma {:induction false} PerformShrinks(c: BreakerConfig, b: Breaker, a: Access, now: nat, succeeds: bool)
    ensures Left(Perform(c, b, a, now, succeeds).1) < Weight(a)
  {
    if Recording(a) {
      RecordingShrinks(c, b, a, now, succeeds);
    } else if Relocking(a) {
      RelockingShrinks(c, b, a, now, succeeds);
    } else {
      SumSpelledShort(Perform(c, b, a, now, succeeds).1, Weight);
    }
  }

  lemma {:induction false} RecordingShrinks(c: BreakerConfig, b: Breaker, a: Access, now: nat, succeeds: bool)
    requires Recording(a)
    ensures Left(Perform(c, b, a, now, succeeds).1) < Weight(a)
  {
    RecordingSum(c, b, a, now, succeeds, Weight);
  }

  lemma {:induction false} RelockingShrinks(c: BreakerConfig, b: Breaker, a: Access, now: nat, succeeds: bool)
    requires Relocking(a)
    ensures Left(Perform(c, b, a, now, succeeds).1) < Weight(a)
  {
    RelockingSum(c, b, a, now, succeeds, Weight);
  }

  /** Every access brings its call closer to its end, whatever the others do. */
  lemma {:induction false} AccessShrinks(c: BreakerConfig, b: Breaker, call: Call, now: nat, succeeds: bool)
    requires call != []
    ensures Left(Perform(c, b, call[0], now, succeeds).1 + call[1..]) < Left(call)
  {
    PerformShrinks(c, b, call[0], now, succeeds);
    SumUncons(call, Weight);
    SumAppend(Perform(c, b, call[0], now, succeeds).1, call[1..], Weight);
  }

  /** A call alone, at one instant, until it ends or is about to run its operation. */
  function Solo(c: BreakerConfig, b: Breaker, call: Call, now: nat, succeeds: bool): (Breaker, Call)
    decreases Left(call)
  {
    if call == [] || call[0] == Operation then (b, call)
    else
      var (b', first) := Perform(c, b, call[0], now, succeeds);
      AccessShrinks(c, b, call, now, succeeds);
      Solo(c, b', first + call[1..], now, succeeds)
  }

  /** Running alone is something the concurrent breaker can do. */
  lemma {:induction false} SoloReachable(c: BreakerConfig, s: State, i: nat, now: nat, succeeds: bool) returns (t: State)
    requires Reachable(c, s) && i < |s.calls| && s.clock <= now
    ensures Reachable(c, t) && t.clock <= now && i < |t.calls|
    ensures (t.breaker, t.calls[i]) == Solo(c, s.breaker, s.calls[i], now, succeeds)
    ensures t.calls == s.calls[i := t.calls[i]]
    decreases Left(s.calls[i])
  {
    var call := s.calls[i];
    if call == [] || call[0] == Operation {
      t := s;
    } else {
      AccessShrinks(c, s.breaker, call, now, succeeds);
      ReachableStep(c, s, Advance(i, now, succeeds));
      t := SoloReachable(c, Apply(c, s, Advance(i, now, succeeds)), i, now, succeeds);
    }
  }

  lemma {:induction false} SoloOnce(c: BreakerConfig, b: Breaker, call: Call, now: nat, succeeds: bool, b': Breaker, rest: Call)
    requires call != [] && call[0] != Operation
    requires Perform(c, b, call[0], now, succeeds).0 == b' && Perform(c, b, call[0], now, succeeds).1 + call[1..] == rest
    ensures Solo(c, b, call, now, succeeds) == Solo(c, b', rest, now, succeeds)
  {
  }

  /** Accesses that put nothing in front. */
  predicate Plain(a: Access) {
    a in {ClearFailures, ClearSuccesses, ClearSlots, Stamp, CountTransition, ForceClosed, TakeSlot, CountRejected,
          AddSuccess, AddFailure, CountSuccessful, CountFailed}
  }

  lemma {:induction false} SoloPlain(c: BreakerConfig, b: Breaker, a: Access, rest: Call, now: nat, succeeds: bool, b': Breaker)
    requires Plain(a) && Perform(c, b, a, now, succeeds).0 == b'
    ensures Solo(c, b, [a] + rest, now, succeeds) == Solo(c, b', rest, now, succeeds)
  {
    assert ([a] + rest)[1..] == rest && [] + rest == rest;
  }

  lemma {:induction false} SoloStamps(c: BreakerConfig, b: Breaker, rest: Call, now: nat, succeeds: bool)
    ensures Solo(c, b, [Stamp, CountTransition] + rest, now, succeeds) ==
            Solo(c, Counted(b.(lastChange := now)), rest, now, succeeds)
  {
    var count := [CountTransition] + rest;
    assert [Stamp, CountTransition] + rest == [Stamp] + count;
    SoloPlain(c, b, Stamp, count, now, succeeds, b.(lastChange := now));
    SoloPlain(c, b.(lastChange := now), CountTransition, rest, now, succeeds, Counted(b.(lastChange := now)));
  }

  lemma {:induction false} SoloPair(c: BreakerConfig, b: Breaker, first: Access, second: Access, rest: Call, now: nat, succeeds: bool,
                   b1: Breaker, b2: Breaker)
    requires Plain(first) && Perform(c, b, first, now, succeeds).0 == b1
    requires Plain(second) && Perform(c, b1, second, now, succeeds).0 == b2
    ensures Solo(c, b, [first, second] + rest, now, succeeds) == Solo(c, b2, rest, now, succeeds)
  {
    assert [first, second] + rest == [first] + ([second] + rest);
    SoloPlain(c, b, first, [second] + rest, now, succeeds, b1);
    SoloPlain(c, b1, second, rest, now, succeeds, b2);
  }

  // ---------------------------------------------------------------- asking

  lemma {:induction false} SoloAsk(c: BreakerConfig, b: Breaker, now: nat, succeeds: bool)
    ensures var (b', allowed) := Allow(c, b, now);
            Solo(c, b, EXECUTE_CALL, now, succeeds) == (b', if allowed then [Operation] else [])
  {
    var asked := b.(metrics := b.metrics.(total := b.metrics.total + 1));
    SoloOnce(c, b, EXECUTE_CALL, now, succeeds, asked, [ReadMode]);
    match b.mode {
      case Closed => SoloOnce(c, asked, [ReadMode], now, succeeds, asked, [Operation]);
      case Open =>
        SoloOnce(c, asked, [ReadMode], now, succeeds, asked, [TestElapsed]);
        SoloTest(c, asked, now, succeeds);
      case HalfOpen =>
        SoloOnce(c, asked, [ReadMode], now, succeeds, asked, [LoadSlots]);
        SoloSlot(c, asked, now, succeeds);
    }
  }

  lemma {:induction false} SoloTest(c: BreakerConfig, b: Breaker, now: nat, succeeds: bool)
    requires b.mode == Open
    ensures Solo(c, b, [TestElapsed], now, succeeds) ==
            if Elapsed(b.lastChange, now) >= c.resetTimeout then (ToHalfOpen(b, now), [Operation]) else (Reject(b), [])
  {
    if Elapsed(b.lastChange, now) >= c.resetTimeout {
      SoloOnce(c, b, [TestElapsed], now, succeeds, b, [LockHalfOpen, Operation]);
      SoloHalfOpen(c, b, [Operation], now, succeeds);
    } else {
      SoloOnce(c, b, [TestElapsed], now, succeeds, b, [CountRejected]);
      SoloOnce(c, b, [CountRejected], now, succeeds, Reject(b), []);
    }
  }

  lemma {:induction false} SoloHalfOpen(c: BreakerConfig, b: Breaker, rest: Call, now: nat, succeeds: bool)
    requires b.mode == Open
    ensures Solo(c, b, [LockHalfOpen] + rest, now, succeeds) == Solo(c, ToHalfOpen(b, now), rest, now, succeeds)
  {
    var b0 := b.(mode := HalfOpen);
    var b2 := b0.(halfOpenRequests := 0, successes := 0);
    var stamps := [Stamp, CountTransition] + rest;
    assert ([LockHalfOpen] + rest)[1..] == rest;
    assert [ClearSlots, ClearSuccesses, Stamp, CountTransition] + rest == [ClearSlots, ClearSuccesses] + stamps;
    SoloOnce(c, b, [LockHalfOpen] + rest, now, succeeds, b0, [ClearSlots, ClearSuccesses] + stamps);
    SoloPair(c, b0, ClearSlots, ClearSuccesses, stamps, now, succeeds, b0.(halfOpenRequests := 0), b2);
    SoloStamps(c, b2, rest, now, succeeds);
  }

  lemma {:induction false} SoloSlot(c: BreakerConfig, b: Breaker, now: nat, succeeds: bool)
    ensures Solo(c, b, [LoadSlots], now, succeeds) ==
            if b.halfOpenRequests < c.halfOpenMaxRequests
            then (b.(halfOpenRequests := Increment(b.halfOpenRequests)), [Operation]) else (Reject(b), [])
  {
    if b.halfOpenRequests < c.halfOpenMaxRequests {
      var taken := b.(halfOpenRequests := Increment(b.halfOpenRequests));
      SoloOnce(c, b, [LoadSlots], now, succeeds, b, [TakeSlot, Operation]);
      SoloOnce(c, b, [TakeSlot, Operation], now, succeeds, taken, [Operation]);
    } else {
      SoloOnce(c, b, [LoadSlots], now, succeeds, b, [CountRejected]);
      SoloOnce(c, b, [CountRejected], now, succeeds, Reject(b), []);
    }
  }

  // ---------------------------------------------------------------- recording

  lemma {:induction false} SoloClears(c: BreakerConfig, b: Breaker, rest: Call, now: nat, succeeds: bool)
    ensures Solo(c, b, [ClearFailures, ClearSuccesses, ClearSlots] + rest, now, succeeds) ==
            Solo(c, b.(failures := 0, successes := 0, halfOpenRequests := 0), rest, now, succeeds)
  {
    var b2 := b.(failures := 0, successes := 0);
    var slots := [ClearSlots] + rest;
    assert [ClearFailures, ClearSuccesses, ClearSlots] + rest == [ClearFailures, ClearSuccesses] + slots;
    SoloPair(c, b, ClearFailures, ClearSuccesses, slots, now, succeeds, b.(failures := 0), b2);
    SoloPlain(c, b2, ClearSlots, rest, now, succeeds, b2.(halfOpenRequests := 0));
  }

  lemma {:induction false} SoloClose(c: BreakerConfig, b: Breaker, now: nat, succeeds: bool)
    requires b.mode != Closed
    ensures Solo(c, b, [LockClosed], now, succeeds) == (ToClosed(b, now), [])
  {
    var clears, stamps := [ClearFailures, ClearSuccesses, ClearSlots], [Stamp, CountTransition];
    var b0 := b.(mode := Closed);
    SoloOnce(c, b, [LockClosed], now, succeeds, b0, clears + stamps);
    SoloClears(c, b0, stamps, now, succeeds);
    assert stamps + [] == stamps;
    SoloStamps(c, b0.(failures := 0, successes := 0, halfOpenRequests := 0), [], now, succeeds);
  }

  lemma {:induction false} SoloOpen(c: BreakerConfig, b: Breaker, now: nat, succeeds: bool)
    requires b.mode != Open
    ensures Solo(c, b, [LockOpen], now, succeeds) == (ToOpen(b, now), [])
  {
    var stamps := [Stamp, CountTransition];
    SoloOnce(c, b, [LockOpen], now, succeeds, b.(mode := Open), stamps);
    assert stamps + [] == stamps;
    SoloStamps(c, b.(mode := Open), [], now, succeeds);
  }

  lemma {:induction false} SoloNoteSuccess(c: BreakerConfig, b: Breaker, now: nat, rest: Call)
    requires rest == match b.mode case Closed => [ClearFailures] case HalfOpen => [LoadSuccesses] case Open => []
    ensures var noted := b.(successes := Increment(b.successes),
                            metrics := b.metrics.(successful := b.metrics.successful + 1));
            Solo(c, b, [ReadAfterSuccess], now, true) == Solo(c, noted, rest, now, true)
  {
    var b1 := b.(successes := Increment(b.successes));
    var noted := b1.(metrics := b.metrics.(successful := b.metrics.successful + 1));
    SoloOnce(c, b, [ReadAfterSuccess], now, true, b, [AddSuccess, CountSuccessful] + rest);
    SoloPair(c, b, AddSuccess, CountSuccessful, rest, now, true, b1, noted);
  }

  lemma {:induction false} SoloSucceed(c: BreakerConfig, b: Breaker, now: nat)
    ensures Solo(c, b, [ReadAfterSuccess], now, true) == (Succeed(c, b, now), [])
  {
    var noted := b.(successes := Increment(b.successes), metrics := b.metrics.(successful := b.metrics.successful + 1));
    match b.mode {
      case Closed =>
        SoloNoteSuccess(c, b, now, [ClearFailures]);
        SoloOnce(c, noted, [ClearFailures], now, true, noted.(failures := 0), []);
      case HalfOpen =>
        SoloNoteSuccess(c, b, now, [LoadSuccesses]);
        SoloEnough(c, noted, now);
      case Open => SoloNoteSuccess(c, b, now, []);
    }
  }

  lemma {:induction false} SoloEnough(c: BreakerConfig, b: Breaker, now: nat)
    requires b.mode == HalfOpen
    ensures Solo(c, b, [LoadSuccesses], now, true) ==
            (if b.successes >= c.successThreshold then ToClosed(b, now) else b, [])
  {
    if b.successes >= c.successThreshold {
      SoloOnce(c, b, [LoadSuccesses], now, true, b, [LockClosed]);
      SoloClose(c, b, now, true);
    } else {
      SoloOnce(c, b, [LoadSuccesses], now, true, b, []);
    }
  }

  lemma {:induction false} SoloNoteFailure(c: BreakerConfig, b: Breaker, now: nat, rest: Call)
    requires rest == match b.mode case Closed => [LoadFailures] case HalfOpen => [LockOpen] case Open => []
    ensures var noted := b.(failures := Increment(b.failures), metrics := b.metrics.(failed := b.metrics.failed + 1));
            Solo(c, b, [ReadAfterFailure], now, false) == Solo(c, noted, rest, now, false)
  {
    var b1 := b.(failures := Increment(b.failures));
    var noted := b1.(metrics := b.metrics.(failed := b.metrics.failed + 1));
    SoloOnce(c, b, [ReadAfterFailure], now, false, b, [AddFailure, CountFailed] + rest);
    SoloPair(c, b, AddFailure, CountFailed, rest, now, false, b1, noted);
  }

  lemma {:induction false} SoloFail(c: BreakerConfig, b: Breaker, now: nat)
    ensures Solo(c, b, [ReadAfterFailure], now, false) == (Fail(c, b, now), [])
  {
    var noted := b.(failures := Increment(b.failures), metrics := b.metrics.(failed := b.metrics.failed + 1));
    match b.mode {
      case Closed =>
        SoloNoteFailure(c, b, now, [LoadFailures]);
        SoloTooMany(c, noted, now);
      case HalfOpen =>
        SoloNoteFailure(c, b, now, [LockOpen]);
        SoloOpen(c, noted, now, false);
      case Open => SoloNoteFailure(c, b, now, []);
    }
  }

  lemma {:induction false} SoloTooMany(c: BreakerConfig, b: Breaker, now: nat)
    requires b.mode == Closed
    ensures Solo(c, b, [LoadFailures], now, false) ==
            (if b.failures >= c.failureThreshold then ToOpen(b, now) else b, [])
  {
    if b.failures >= c.failureThreshold {
      SoloOnce(c, b, [LoadFailures], now, false, b, [LockOpen]);
      SoloOpen(c, b, now, false);
    } else {
      SoloOnce(c, b, [LoadFailures], now, false, b, []);
    }
  }

  // ---------------------------------------------------------------- whole calls

  lemma {:induction false} AskAlone(c: BreakerConfig, s: State, asked: nat) returns (t: State)
    requires Reachable(c, s) && s.clock <= asked
    ensures Reachable(c, t) && t.clock <= asked && t.breaker == Allow(c, s.breaker, asked).0
    ensures t.calls == s.calls + [if Allow(c, s.breaker, asked).1 then [Operation] else []]
  {
    ReachableStep(c, s, Begin(EXECUTE_CALL));
    t := SoloReachable(c, Apply(c, s, Begin(EXECUTE_CALL)), |s.calls|, asked, true);
    SoloAsk(c, s.breaker, asked, true);
  }

  lemma {:induction false} RecordAlone(c: BreakerConfig, s: State, i: nat, done: nat, succeeds: bool) returns (t: State)
    requires Reachable(c, s) && i < |s.calls| && s.calls[i] == [Operation] && s.clock <= done
    ensures Reachable(c, t) && t.clock <= done && t.calls == s.calls[i := []]
    ensures t.breaker == if succeeds then Succeed(c, s.breaker, done) else Fail(c, s.breaker, done)
  {
    ReachableStep(c, s, Advance(i, done, succeeds));
    var s1 := Apply(c, s, Advance(i, done, succeeds));
    assert s1.calls[i] == [if succeeds then ReadAfterSuccess else ReadAfterFailure];
    t := SoloReachable(c, s1, i, done, succeeds);
    if succeeds { SoloSucceed(c, s.breaker, done); } else { SoloFail(c, s.breaker, done); }
  }

  /** An `execute` that nobody interrupts is `Execute`: the same breaker, and its operation runs iff it was allowed. */
  lemma {:induction false} ExecuteAlone(c: BreakerConfig, s: State, asked: nat, done: nat, succeeds: bool)
    returns (mid: State, t: State)
    requires Reachable(c, s) && s.clock <= asked <= done
    ensures Reachable(c, mid) && mid.clock <= asked && mid.breaker == Allow(c, s.breaker, asked).0
    ensures mid.calls == s.calls + [if Allow(c, s.breaker, asked).1 then [Operation] else []]
    ensures Reachable(c, t) && t.clock <= done && t.calls == s.calls + [[]]
    ensures t.breaker == Execute(c, s.breaker, asked, done, succeeds).0
  {
    mid := AskAlone(c, s, asked);
    t := mid;
    if Allow(c, s.breaker, asked).1 {
      t := RecordAlone(c, mid, |s.calls|, done, succeeds);
    }
  }

  lemma {:induction false} SoloReset(c: BreakerConfig, b: Breaker, now: nat)
    ensures Solo(c, b, RESET_CALL, now, true) == (Reset(b, now), [])
  {
    var end := [ForceClosed, Stamp];
    var b0 := b.(failures := 0, successes := 0, halfOpenRequests := 0);
    assert RESET_CALL == [ClearFailures, ClearSuccesses, ClearSlots] + end;
    SoloClears(c, b, end, now, true);
    SoloForce(c, b0, end, now);
  }

  lemma {:induction false} SoloForce(c: BreakerConfig, b: Breaker, end: Call, now: nat)
    requires end == [ForceClosed, Stamp]
    ensures Solo(c, b, end, now, true) == (b.(mode := Closed, lastChange := now), [])
  {
    assert end + [] == end;
    SoloPair(c, b, ForceClosed, Stamp, [], now, true, b.(mode := Closed), b.(mode := Closed, lastChange := now));
  }

  /** A `reset` that nobody interrupts is `Reset`. */
  lemma {:induction false} ResetAlone(c: BreakerConfig, s: State, now: nat) returns (t: State)
    requires Reachable(c, s) && s.clock <= now
    ensures Reachable(c, t) && t.clock <= now && t.calls == s.calls + [[]]
    ensures t.breaker == Reset(s.breaker, now)
  {
    ReachableStep(c, s, Begin(RESET_CALL));
    t := SoloReachable(c, Apply(c, s, Begin(RESET_CALL)), |s.calls|, now, true);
    SoloReset(c, s.breaker, now);
  }
}

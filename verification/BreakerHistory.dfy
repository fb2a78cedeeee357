/** The breaker against its call history, with every interleaving of whole method calls. */
module BreakerHistory {
  import opened CircuitBreakerSdk
  import opened Words

  datatype Call = Asked(at: nat) | Succeeded(at: nat) | Failed(at: nat) | Cleared(at: nat)

  function Do(c: BreakerConfig, b: Breaker, call: Call): Breaker {
    match call
    case Asked(at) => Allow(c, b, at).0
    case Succeeded(at) => Succeed(c, b, at)
    case Failed(at) => Fail(c, b, at)
    case Cleared(at) => Reset(b, at)
  }

  function Replay(c: BreakerConfig, h: seq<Call>): Breaker {
    if |h| == 0 then New(0) else Do(c, Replay(c, h[..|h| - 1]), h[|h| - 1])
  }

  // ---------------------------------------------------------------- a breaker that looks things up in the history

  function CountAsked(h: seq<Call>): nat {
    if |h| == 0 then 0 else CountAsked(h[..|h| - 1]) + if h[|h| - 1].Asked? then 1 else 0
  }

  function CountSucceeded(h: seq<Call>): nat {
    if |h| == 0 then 0 else CountSucceeded(h[..|h| - 1]) + if h[|h| - 1].Succeeded? then 1 else 0
  }

  function CountFailed(h: seq<Call>): nat {
    if |h| == 0 then 0 else CountFailed(h[..|h| - 1]) + if h[|h| - 1].Failed? then 1 else 0
  }

  /** Where in the history the current failure run or half-open episode began. */
  datatype Ledger = Ledger(mode: Mode, since: nat, mark: nat)

  function Follow(c: BreakerConfig, h: seq<Call>): (l: Ledger)
    ensures l.mark <= |h|
  {
    if |h| == 0 then Ledger(Closed, 0, 0)
    else
      var l := Follow(c, h[..|h| - 1]);
      var recent := h[l.mark..];
      match (h[|h| - 1], l.mode)
      case (Asked(at), Open) => if Elapsed(l.since, at) >= c.resetTimeout then Ledger(HalfOpen, at, |h|) else l
      case (Succeeded(at), Closed) => l.(mark := |h|)
      case (Succeeded(at), HalfOpen) => if CountSucceeded(recent) >= c.successThreshold then Ledger(Closed, at, |h|) else l
      case (Failed(at), Closed) => if CountFailed(recent) >= c.failureThreshold then Ledger(Open, at, |h|) else l
      case (Failed(at), HalfOpen) => Ledger(Open, at, |h|)
      case (Cleared(at), _) => Ledger(Closed, at, |h|)
      case (_, _) => l
  }

  function Min(a: nat, b: nat): nat { if a <= b then a else b }

  /** Would the history admit a request made at time `at`? */
  predicate Admits(c: BreakerConfig, h: seq<Call>, at: nat) {
    var l := Follow(c, h);
    match l.mode
    case Closed => true
    case Open => Elapsed(l.since, at) >= c.resetTimeout
    case HalfOpen => CountAsked(h[l.mark..]) < c.halfOpenMaxRequests
  }

  ghost predicate Agrees(c: BreakerConfig, b: Breaker, h: seq<Call>) {
    var l := Follow(c, h);
    && b.mode == l.mode && b.lastChange == l.since
    && (b.mode == Closed ==> b.failures == CountFailed(h[l.mark..]) < c.failureThreshold)
    && (b.mode == HalfOpen ==>
         && b.successes == CountSucceeded(h[l.mark..]) < c.successThreshold
         && b.halfOpenRequests == Min(CountAsked(h[l.mark..]), c.halfOpenMaxRequests))
  }

  lemma {:induction false} OneMore(h: seq<Call>, mark: nat)
    requires |h| > 0 && mark < |h|
    ensures var last, recent, before := h[|h| - 1], h[mark..], h[..|h| - 1][mark..];
            && CountAsked(recent) == CountAsked(before) + (if last.Asked? then 1 else 0)
            && CountSucceeded(recent) == CountSucceeded(before) + (if last.Succeeded? then 1 else 0)
            && CountFailed(recent) == CountFailed(before) + (if last.Failed? then 1 else 0)
  {
    assert h[mark..][..|h[mark..]| - 1] == h[..|h| - 1][mark..];
  }

  /** The ledger after one more call, with the counts it looks up spelled out. */
  lemma {:induction false} OneMoreCall(c: BreakerConfig, h: seq<Call>, b: Breaker)
    requires c.Valid() && |h| > 0 && Agrees(c, b, h[..|h| - 1])
    ensures Agrees(c, Do(c, b, h[|h| - 1]), h)
  {
    var l := Follow(c, h[..|h| - 1]);
    OneMore(h, l.mark);
    assert h[|h|..] == [];
    match h[|h| - 1]
    case Asked(at) => MoreAsked(c, h, b, l);
    case Succeeded(at) => MoreSucceeded(c, h, b, l);
    case Failed(at) => MoreFailed(c, h, b, l);
    case Cleared(at) =>
  }

  lemma {:induction false} MoreAsked(c: BreakerConfig, h: seq<Call>, b: Breaker, l: Ledger)
    requires c.Valid() && |h| > 0 && h[|h| - 1].Asked? && l == Follow(c, h[..|h| - 1]) && Agrees(c, b, h[..|h| - 1])
    ensures Agrees(c, Do(c, b, h[|h| - 1]), h)
  {
    OneMore(h, l.mark);
    assert h[|h|..] == [];
  }

  lemma {:induction false} MoreSucceeded(c: BreakerConfig, h: seq<Call>, b: Breaker, l: Ledger)
    requires c.Valid() && |h| > 0 && h[|h| - 1].Succeeded? && l == Follow(c, h[..|h| - 1]) && Agrees(c, b, h[..|h| - 1])
    ensures Agrees(c, Do(c, b, h[|h| - 1]), h)
  {
    OneMore(h, l.mark);
    assert h[|h|..] == [];
  }

  lemma {:induction false} MoreFailed(c: BreakerConfig, h: seq<Call>, b: Breaker, l: Ledger)
    requires c.Valid() && |h| > 0 && h[|h| - 1].Failed? && l == Follow(c, h[..|h| - 1]) && Agrees(c, b, h[..|h| - 1])
    ensures Agrees(c, Do(c, b, h[|h| - 1]), h)
  {
    OneMore(h, l.mark);
    assert h[|h|..] == [];
  }

  /** The wrapping counters never mislead: the breaker decides as its history does, after every history. */
  lemma {:induction false} CountersMatchHistory(c: BreakerConfig, h: seq<Call>)
    requires c.Valid()
    ensures Agrees(c, Replay(c, h), h)
    ensures forall at :: Allow(c, Replay(c, h), at).1 == Admits(c, h, at)
  {
    if |h| > 0 {
      CountersMatchHistory(c, h[..|h| - 1]);
      OneMoreCall(c, h, Replay(c, h[..|h| - 1]));
    }
  }

  // ---------------------------------------------------------------- the failure run, without reference to modes

  /** One past the last success or reset. */
  function LastCalm(h: seq<Call>): (k: nat)
    ensures k <= |h|
  {
    if |h| == 0 then 0
    else if h[|h| - 1].Succeeded? || h[|h| - 1].Cleared? then |h|
    else LastCalm(h[..|h| - 1])
  }

  lemma {:induction false} ClosedMark(c: BreakerConfig, h: seq<Call>)
    requires Follow(c, h).mode == Closed
    ensures Follow(c, h).mark == LastCalm(h)
  {
    if |h| > 0 && !h[|h| - 1].Cleared? && !h[|h| - 1].Succeeded? {
      ClosedMark(c, h[..|h| - 1]);
    }
  }

  /** In Closed the failure count is the number of failures since the last success or reset, and is below the threshold. */
  lemma {:induction false} FailureRun(c: BreakerConfig, h: seq<Call>)
    requires c.Valid() && Replay(c, h).mode == Closed
    ensures Replay(c, h).failures == CountFailed(h[LastCalm(h)..]) < c.failureThreshold
  {
    CountersMatchHistory(c, h);
    ClosedMark(c, h);
  }

  // ---------------------------------------------------------------- half-open episodes of any run

  predicate AdmittedAt(c: BreakerConfig, h: seq<Call>, i: nat)
    requires i < |h|
  {
    h[i].Asked? && Allow(c, Replay(c, h[..i]), h[i].at).1
  }

  function CountAdmitted(c: BreakerConfig, h: seq<Call>, start: nat, end: nat): nat
    requires start <= end <= |h|
    decreases end
  {
    if start == end then 0 else CountAdmitted(c, h, start, end - 1) + if AdmittedAt(c, h, end - 1) then 1 else 0
  }

  /** The call at `start` takes the breaker out of Open, and it stays half-open up to and including `end`. */
  ghost predicate Episode(c: BreakerConfig, h: seq<Call>, start: nat, end: nat) {
    && start < end <= |h|
    && Replay(c, h[..start]).mode == Open
    && forall k :: start < k < end ==> Replay(c, h[..k]).mode == HalfOpen
  }

  /** Within an episode the counter moves exactly with the admissions, and starts from 0 at the call that opened it. */
  lemma {:induction false} EpisodeStep(c: BreakerConfig, b: Breaker, call: Call)
    requires c.Valid() && Do(c, b, call).mode == HalfOpen
    requires b.mode == HalfOpen ==> b.halfOpenRequests <= c.halfOpenMaxRequests
    ensures b.mode == Open ==> call.Asked? && Allow(c, b, call.at).1 && Do(c, b, call).halfOpenRequests == 0
    ensures b.mode == HalfOpen ==>
              && Do(c, b, call).halfOpenRequests ==
                 b.halfOpenRequests + (if call.Asked? && Allow(c, b, call.at).1 then 1 else 0)
              && Do(c, b, call).halfOpenRequests <= c.halfOpenMaxRequests
  {
  }

  lemma {:induction false} EpisodeCount(c: BreakerConfig, h: seq<Call>, start: nat, end: nat)
    requires c.Valid() && Episode(c, h, start, end) && Replay(c, h[..end]).mode == HalfOpen
    ensures CountAdmitted(c, h, start, end) == 1 + Replay(c, h[..end]).halfOpenRequests
    ensures Replay(c, h[..end]).halfOpenRequests <= c.halfOpenMaxRequests
    decreases end
  {
    var before := Replay(c, h[..end - 1]);
    assert h[..end][..end - 1] == h[..end - 1];
    assert Replay(c, h[..end]) == Do(c, before, h[end - 1]);
    if start + 1 < end {
      EpisodeCount(c, h, start, end - 1);
      EpisodeStep(c, before, h[end - 1]);
    } else {
      EpisodeStep(c, before, h[end - 1]);
      assert CountAdmitted(c, h, start, start) == 0;
    }
  }

  /** No half-open episode of any run admits more than `half_open_max_requests + 1` requests. */
  lemma {:induction false} EpisodeAdmissions(c: BreakerConfig, h: seq<Call>, start: nat, end: nat)
    requires c.Valid() && Episode(c, h, start, end)
    ensures CountAdmitted(c, h, start, end) <= c.halfOpenMaxRequests + 1
  {
    assert h[..end][..end - 1] == h[..end - 1];
    if start + 1 == end {
      assert CountAdmitted(c, h, start, start) == 0;
    } else {
      EpisodeCount(c, h, start, end - 1);
    }
  }

  // ---------------------------------------------------------------- metrics

  function ModeChanges(c: BreakerConfig, h: seq<Call>): nat {
    if |h| == 0 then 0
    else
      var before := h[..|h| - 1];
      ModeChanges(c, before)
      + if !h[|h| - 1].Cleared? && Replay(c, h).mode != Replay(c, before).mode then 1 else 0
  }

  function Rejections(c: BreakerConfig, h: seq<Call>): nat { CountAsked(h) - Admissions(c, h) }

  function Admissions(c: BreakerConfig, h: seq<Call>): (n: nat)
    ensures n <= CountAsked(h)
  {
    if |h| == 0 then 0
    else Admissions(c, h[..|h| - 1])
         + if h[|h| - 1].Asked? && Allow(c, Replay(c, h[..|h| - 1]), h[|h| - 1].at).1 then 1 else 0
  }

  /** Every metric is a count over the history; transitions are the mode changes no reset made. */
  lemma {:induction false} MetricsMatchHistory(c: BreakerConfig, h: seq<Call>)
    ensures var m := Replay(c, h).metrics;
            && m.total == CountAsked(h)
            && m.successful == CountSucceeded(h)
            && m.failed == CountFailed(h)
            && m.rejected == Rejections(c, h)
            && m.transitions == ModeChanges(c, h)
  {
    if |h| > 0 {
      MetricsMatchHistory(c, h[..|h| - 1]);
    }
  }

  /** A request leaves Open only when the timeout has passed since the last change, and is the only call that leaves it. */
  lemma {:induction false} LeavingOpen(c: BreakerConfig, h: seq<Call>, call: Call)
    requires c.Valid() && Replay(c, h).mode == Open
    ensures Replay(c, h + [call]).mode != Open <==>
            call.Cleared? || (call.Asked? && (call.at >= Follow(c, h).since + c.resetTimeout || c.resetTimeout == 0))
  {
    CountersMatchHistory(c, h);
    assert (h + [call])[..|h|] == h;
  }

  // ---------------------------------------------------------------- what the caller is told

  /** The caller's answer is what the call leaves in the metrics, and what its operation did. */
  lemma {:induction false} OutcomeMatchesMetrics(c: BreakerConfig, b: Breaker, asked: nat, done: nat, succeeds: bool)
    ensures var (after, outcome) := Execute(c, b, asked, done, succeeds);
            && (outcome == CircuitOpen <==> after.metrics.rejected == b.metrics.rejected + 1)
            && (outcome == Completed <==> succeeds && after.metrics.successful == b.metrics.successful + 1)
            && (outcome == OperationFailed <==> !succeeds && after.metrics.failed == b.metrics.failed + 1)
            && after.metrics.total == b.metrics.total + 1
  {
  }

  /** Over histories: rejected exactly when the history does not admit it, otherwise answered as its operation ended. */
  lemma {:induction false} OutcomeMatchesHistory(c: BreakerConfig, h: seq<Call>, asked: nat, done: nat, succeeds: bool)
    requires c.Valid()
    ensures Execute(c, Replay(c, h), asked, done, succeeds).1 ==
            if !Admits(c, h, asked) then CircuitOpen else if succeeds then Completed else OperationFailed
  {
    CountersMatchHistory(c, h);
  }
}

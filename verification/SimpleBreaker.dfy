/** The two-state circuit breaker, against the log of its calls. */
module SimpleBreaker {
  import opened Events
  import opened Words

  datatype Settings = Settings(threshold: nat, resetTimeout: nat) {
    predicate Fits() { threshold < U32 }

    /** The first failure opens a breaker whose threshold is 0, just as if it were 1. */
    function Effective(): nat { if threshold == 0 then 1 else threshold }
  }

  datatype Switch = Switch(isOpen: bool, failures: nat, openedAt: Option<nat>)

  const INITIAL: Switch := Switch(false, 0, None)

  function Succeed(s: Switch): Switch { Switch(false, 0, None) }

  function Fail(c: Settings, s: Switch, now: nat): Switch {
    if s.isOpen then
      if s.openedAt.Some? then s.(openedAt := Some(now)) else s
    else
      var counted := Increment(s.failures);
      if counted >= c.threshold then Switch(true, counted, Some(now)) else s.(failures := counted)
  }

  function Probe(c: Settings, s: Switch, now: nat): (Switch, bool) {
    if !s.isOpen then (s, false)
    else
      match s.openedAt
      case Some(since) => if Elapsed(since, now) >= c.resetTimeout then (Switch(false, 0, None), false) else (s, true)
      case None => (s.(isOpen := false, failures := 0), false)
  }

  class CircuitBreaker {
    const settings: Settings
    var isOpen: bool
    var failureCount: nat
    var lastFailureOrOpenedTime: Option<nat>

    ghost function View(): Switch
      reads this
    {
      Switch(isOpen, failureCount, lastFailureOrOpenedTime)
    }

    constructor (settings: Settings)
      ensures this.settings == settings && View() == INITIAL
    {
      this.settings, isOpen, failureCount, lastFailureOrOpenedTime := settings, false, 0, None;
    }

    method RecordSuccess()
      modifies this
      ensures View() == Succeed(old(View()))
    {
      isOpen := false;
      failureCount := 0;
      lastFailureOrOpenedTime := None;
    }

    method RecordFailure(now: nat)
      modifies this
      ensures View() == Fail(settings, old(View()), now)
    {
      if isOpen {
        if lastFailureOrOpenedTime.Some? {
          lastFailureOrOpenedTime := Some(now);
        }
        return;
      }
      failureCount := Increment(failureCount);
      if failureCount >= settings.threshold {
        isOpen := true;
        lastFailureOrOpenedTime := Some(now);
      }
    }

    method IsOpen(now: nat) returns (open: bool)
      modifies this
      ensures (View(), open) == Probe(settings, old(View()), now)
    {
      if !isOpen {
        return false;
      }
      match lastFailureOrOpenedTime {
        case Some(openedAt) =>
          if Elapsed(openedAt, now) >= settings.resetTimeout {
            isOpen := false;
            failureCount := 0;
            lastFailureOrOpenedTime := None;
            open := false;
          } else {
            open := true;
          }
        case None =>
          isOpen := false;
          failureCount := 0;
          open := false;
      }
    }
  }

  // ---------------------------------------------------------------- the log

  datatype Entry = Succeeded | Failed(at: nat) | Probed(at: nat)

  function Do(c: Settings, s: Switch, e: Entry): Switch {
    match e
    case Succeeded => Succeed(s)
    case Failed(at) => Fail(c, s, at)
    case Probed(at) => Probe(c, s, at).0
  }

  function Replay(c: Settings, log: seq<Entry>): Switch {
    if |log| == 0 then INITIAL else Do(c, Replay(c, log[..|log| - 1]), log[|log| - 1])
  }

  function CountFailed(log: seq<Entry>): nat {
    if |log| == 0 then 0 else CountFailed(log[..|log| - 1]) + if log[|log| - 1].Failed? then 1 else 0
  }

  function LastFailure(log: seq<Entry>): Option<nat> {
    if |log| == 0 then None
    else if log[|log| - 1].Failed? then Some(log[|log| - 1].at)
    else LastFailure(log[..|log| - 1])
  }

  /** One past the last success or the last probe that found the timeout over. */
  function Mark(c: Settings, log: seq<Entry>): (k: nat)
    ensures k <= |log|
    decreases |log|, 0
  {
    if |log| == 0 then 0
    else
      var before := log[..|log| - 1];
      match log[|log| - 1]
      case Succeeded => |log|
      case Failed(_) => Mark(c, before)
      case Probed(at) => if Tripped(c, before) && !Recent(c, before, at) then |log| else Mark(c, before)
  }

  function FailureRun(c: Settings, log: seq<Entry>): nat { CountFailed(log[Mark(c, log)..]) }

  predicate Tripped(c: Settings, log: seq<Entry>)
    decreases |log|, 1
  {
    CountFailed(log[Mark(c, log)..]) >= c.Effective()
  }

  /** The most recent failure in the log is less than the reset timeout old. */
  predicate Recent(c: Settings, log: seq<Entry>, now: nat) {
    match LastFailure(log)
    case Some(at) => Elapsed(at, now) < c.resetTimeout
    case None => false
  }

  lemma {:induction false} OneMore(log: seq<Entry>, mark: nat)
    requires |log| > 0 && mark < |log|
    ensures CountFailed(log[mark..]) == CountFailed(log[..|log| - 1][mark..]) + if log[|log| - 1].Failed? then 1 else 0
  {
    assert log[mark..][..|log[mark..]| - 1] == log[..|log| - 1][mark..];
  }

  lemma {:induction false} SomeFailure(log: seq<Entry>, mark: nat)
    requires mark <= |log| && CountFailed(log[mark..]) > 0
    ensures LastFailure(log).Some?
  {
    assert log[|log|..] == [];
    if mark < |log| && !log[|log| - 1].Failed? {
      OneMore(log, mark);
      SomeFailure(log[..|log| - 1], mark);
    }
  }

  /**
   * The switch is a function of its log: open iff the failure run has reached the threshold, and then its stored time
   * is that of the most recent failure; closed, its counter is the failure run and it stores no time.
   */
  lemma {:induction false} SwitchMatchesLog(c: Settings, log: seq<Entry>)
    requires c.Fits()
    ensures var s := Replay(c, log);
            && (s.isOpen <==> Tripped(c, log))
            && (s.isOpen ==> s.openedAt.Some? && s.openedAt == LastFailure(log))
            && (!s.isOpen ==> s.openedAt == None && s.failures == FailureRun(c, log) < c.Effective())
  {
    if |log| > 0 {
      var before := log[..|log| - 1];
      SwitchMatchesLog(c, before);
      OneMore(log, Mark(c, before));
      assert log[|log|..] == [];
    }
  }

  /** What a caller is told, in terms of the log alone; the open-without-a-time branch is never taken. */
  lemma {:induction false} AnswerMatchesLog(c: Settings, log: seq<Entry>, now: nat)
    requires c.Fits()
    ensures Probe(c, Replay(c, log), now).1 <==> Tripped(c, log) && Recent(c, log, now)
    ensures !(Replay(c, log).isOpen && Replay(c, log).openedAt == None)
  {
    SwitchMatchesLog(c, log);
  }
}

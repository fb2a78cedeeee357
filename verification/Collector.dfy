/** The event collector's loop with its clock: when a batch is cut, and how long an event can wait for it. */
module Collector {
  import opened Events
  import Pipeline

  datatype Stamped = Stamped(event: SolanaEvent, at: nat)

  datatype Dispatch = Dispatch(batch: seq<Stamped>, at: nat)

  /** What ends one wait of the collector: an event, its timer, or the closing of the event channel. */
  datatype Wake = Arrival(event: SolanaEvent, at: nat) | TimerFired | Disconnected(at: nat)

  /**
   * One pass of the loop: `lag` is the time from the end of the previous pass to reading the clock in this one, and
   * `blocked` how long sending a batch has to wait for room in the batch channel, if this pass sends one.
   */
  datatype Round = Round(lag: nat, wake: Wake, blocked: nat)

  datatype Loop = Loop(current: seq<Stamped>, lastActivity: nat, now: nat, sent: seq<Dispatch>, stopped: bool)

  const FRESH: Loop := Loop([], 0, 0, [], false)

  datatype Settings = Settings(batchSize: nat, batchTimeout: nat) {
    predicate Valid() { batchSize >= 1 }

    function Remaining(l: Loop, lag: nat): nat {
      var elapsed := if l.now + lag >= l.lastActivity then l.now + lag - l.lastActivity else 0;
      if batchTimeout >= elapsed then batchTimeout - elapsed else 0
    }

    /** The guard on the timer branch. */
    predicate Armed(l: Loop, lag: nat) { l.current != [] && Remaining(l, lag) > 0 }

    function Deadline(l: Loop, lag: nat): nat { l.now + lag + Remaining(l, lag) }

    /** The collector is still waiting at time `t` of a pass. */
    predicate Waiting(l: Loop, lag: nat, t: nat) {
      !l.stopped && l.now <= t && (Armed(l, lag) ==> t <= Deadline(l, lag))
    }

    predicate Possible(l: Loop, r: Round) {
      && !l.stopped
      && match r.wake
         case Arrival(_, at) => l.now + r.lag <= at && Waiting(l, r.lag, at)
         case TimerFired => Armed(l, r.lag)
         case Disconnected(at) => l.now + r.lag <= at && Waiting(l, r.lag, at)
    }

    function Turn(l: Loop, r: Round): Loop
      requires Possible(l, r)
    {
      match r.wake
      case Arrival(event, at) =>
        var grown := l.current + [Stamped(event, at)];
        if |grown| >= batchSize then Loop([], at, at + r.blocked, l.sent + [Dispatch(grown, at)], false)
        else Loop(grown, at, at, l.sent, false)
      case TimerFired =>
        var at := Deadline(l, r.lag);
        Loop([], at + r.blocked, at + r.blocked, l.sent + [Dispatch(l.current, at)], false)
      case Disconnected(at) =>
        if l.current == [] then l.(now := at, stopped := true)
        else Loop([], l.lastActivity, at + r.blocked, l.sent + [Dispatch(l.current, at)], true)
    }

    predicate AllPossible(l: Loop, rounds: seq<Round>)
      decreases |rounds|
    {
      rounds == [] || (Possible(l, rounds[0]) && AllPossible(Turn(l, rounds[0]), rounds[1..]))
    }

    function Turns(l: Loop, rounds: seq<Round>): Loop
      requires AllPossible(l, rounds)
      decreases |rounds|
    {
      if rounds == [] then l else Turns(Turn(l, rounds[0]), rounds[1..])
    }
  }

  ghost predicate LagsUpTo(rounds: seq<Round>, most: nat) { forall i :: 0 <= i < |rounds| ==> rounds[i].lag <= most }

  /** The loop itself, over `current_batch` and the time of last activity. */
  class EventCollector {
    const settings: Settings
    var currentBatch: seq<Stamped>
    var lastActivity: nat
    var now: nat
    var sent: seq<Dispatch>
    var stopped: bool

    ghost function Snapshot(): Loop
      reads this
    {
      Loop(currentBatch, lastActivity, now, sent, stopped)
    }

    constructor (settings: Settings)
      ensures this.settings == settings && Snapshot() == FRESH
    {
      this.settings := settings;
      currentBatch, lastActivity, now, sent, stopped := [], 0, 0, [], false;
    }

    /** The batch is handed over at the present time and leaves after `blocked`. */
    method Send(blocked: nat)
      modifies this`sent, this`currentBatch, this`now
      ensures sent == old(sent) + [Dispatch(old(currentBatch), old(now))] && currentBatch == []
      ensures now == old(now) + blocked
    {
      sent := sent + [Dispatch(currentBatch, now)];
      currentBatch := [];
      now := now + blocked;
    }

    method Run(rounds: seq<Round>)
      requires settings.Valid() && settings.AllPossible(Snapshot(), rounds)
      modifies this
      ensures Snapshot() == settings.Turns(old(Snapshot()), rounds)
    {
      var i := 0;
      while i < |rounds|
        invariant 0 <= i <= |rounds|
        invariant settings.AllPossible(Snapshot(), rounds[i..])
        invariant settings.Turns(Snapshot(), rounds[i..]) == settings.Turns(old(Snapshot()), rounds)
      {
        assert rounds[i..][0] == rounds[i] && rounds[i..][1..] == rounds[i + 1..];
        var lag := rounds[i].lag;
        var elapsed := if now + lag >= lastActivity then now + lag - lastActivity else 0;
        var remaining := if settings.batchTimeout >= elapsed then settings.batchTimeout - elapsed else 0;
        match rounds[i].wake {
          case Arrival(event, at) =>
            currentBatch := currentBatch + [Stamped(event, at)];
            lastActivity, now := at, at;
            if |currentBatch| >= settings.batchSize {
              Send(rounds[i].blocked);
            }
          case TimerFired =>
            now := now + lag + remaining;
            Send(rounds[i].blocked);
            lastActivity := now;
          case Disconnected(at) =>
            now := at;
            if currentBatch != [] {
              Send(rounds[i].blocked);
            }
            stopped := true;
        }
        i := i + 1;
      }
    }
  }

  function EventsOf(batch: seq<Stamped>): seq<SolanaEvent> { seq(|batch|, i requires 0 <= i < |batch| => batch[i].event) }

  /** Forgetting the clock, an arrival is what the pipeline's collector does with a received event. */
  lemma {:induction false} ArrivalIsCollect(c: Pipeline.Config, s: Settings, l: Loop, r: Round)
    requires s.Valid() && c.batchSize == s.batchSize && s.Possible(l, r) && r.wake.Arrival?
    ensures var t := s.Turn(l, r);
            Pipeline.Collect(c, EventsOf(l.current), r.wake.event) ==
            if |t.sent| > |l.sent| then Pipeline.Sending(EventsOf(t.sent[|l.sent|].batch), false)
            else Pipeline.Collecting(EventsOf(t.current))
  {
    assert EventsOf(l.current + [Stamped(r.wake.event, r.wake.at)]) == EventsOf(l.current) + [r.wake.event];
  }

  // ---------------------------------------------------------------- how long an event waits

  function Longest(s: Settings): nat
    requires s.Valid()
  {
    (s.batchSize - 1) * s.batchTimeout
  }

  predicate Prompt(s: Settings, d: Dispatch)
    requires s.Valid()
  {
    1 <= |d.batch| <= s.batchSize && d.batch[0].at <= d.at <= d.batch[0].at + Longest(s)
  }

  ghost predicate OnTime(s: Settings, l: Loop)
    requires s.Valid()
  {
    && (forall i :: 0 <= i < |l.sent| ==> Prompt(s, l.sent[i]))
    && (l.current != [] ==>
         && !l.stopped
         && |l.current| < s.batchSize
         && l.now == l.lastActivity
         && l.current[0].at <= l.lastActivity <= l.current[0].at + (|l.current| - 1) * s.batchTimeout)
  }

  lemma {:induction false} Grows(n: nat, m: nat, k: nat)
    requires n <= m
    ensures n * k <= m * k
    ensures (n + 1) * k == n * k + k
  {
  }

  /** With the clock read soon enough the timer is armed, so the oldest event waits one more timeout at the most. */
  lemma {:induction false} WaitIsBounded(s: Settings, l: Loop, lag: nat, t: nat)
    requires s.Valid() && OnTime(s, l) && l.current != []
    requires lag < s.batchTimeout && s.Waiting(l, lag, t)
    ensures t <= l.current[0].at + |l.current| * s.batchTimeout <= l.current[0].at + Longest(s)
  {
    var n := |l.current|;
    Grows(n - 1, n - 1, s.batchTimeout);
    Grows(n, s.batchSize - 1, s.batchTimeout);
  }

  lemma {:induction false} TurnOnTime(s: Settings, l: Loop, r: Round)
    requires s.Valid() && OnTime(s, l) && s.Possible(l, r) && (r.lag < s.batchTimeout || s.batchSize == 1)
    ensures OnTime(s, s.Turn(l, r))
  {
    if l.current != [] {
      var at := match r.wake case Arrival(_, at) => at case TimerFired => s.Deadline(l, r.lag) case Disconnected(at) => at;
      assert s.Waiting(l, r.lag, at);
      WaitIsBounded(s, l, r.lag, at);
      assert r.wake.Arrival? ==> (l.current + [Stamped(r.wake.event, at)])[0] == l.current[0];
    }
  }

  lemma {:induction false} TurnsOnTime(s: Settings, l: Loop, rounds: seq<Round>, most: nat)
    requires s.Valid() && OnTime(s, l) && s.AllPossible(l, rounds)
    requires LagsUpTo(rounds, most) && (most < s.batchTimeout || s.batchSize == 1)
    ensures OnTime(s, s.Turns(l, rounds))
    decreases |rounds|
  {
    if rounds != [] {
      assert rounds[0].lag <= most;
      TurnOnTime(s, l, rounds[0]);
      TurnsOnTime(s, s.Turn(l, rounds[0]), rounds[1..], most);
    }
  }

  /** What an observer at time `t` of a pass must find. */
  ghost predicate NothingLate(s: Settings, l: Loop, lag: nat, t: nat)
    requires s.Valid()
  {
    && (forall i :: 0 <= i < |l.sent| ==> Prompt(s, l.sent[i]))
    && (l.current != [] && s.Waiting(l, lag, t) ==> t <= l.current[0].at + Longest(s))
  }

  /** In every run with lags up to `most`, no event is ever seen waiting longer than `Longest`. */
  ghost predicate NeverLate(s: Settings, most: nat)
    requires s.Valid()
  {
    forall rounds, lag: nat, t: nat ::
      LagsUpTo(rounds, most) && s.AllPossible(FRESH, rounds) && lag <= most ==> NothingLate(s, s.Turns(FRESH, rounds), lag, t)
  }

  /** A lag as long as the timeout leaves the timer off, and the event waits until another arrives. */
  lemma {:induction false} LateTimerStalls(s: Settings, lag: nat, t: nat)
    requires s.batchSize >= 2 && lag >= s.batchTimeout
    ensures var one := [Round(0, Arrival(SolanaEvent(Transaction, 0, ""), 0), 0)];
            && s.AllPossible(FRESH, one)
            && s.Turns(FRESH, one).current == [Stamped(SolanaEvent(Transaction, 0, ""), 0)]
            && s.Waiting(s.Turns(FRESH, one), lag, t)
  {
    var r := Round(0, Arrival(SolanaEvent(Transaction, 0, ""), 0), 0);
    assert s.Possible(FRESH, r);
    assert s.Turns(s.Turn(FRESH, r), [r][1..]) == s.Turn(FRESH, r);
  }

  /** The wait bound holds exactly when the loop always comes back to its clock within the timeout. */
  lemma {:induction false} WaitBound(s: Settings, most: nat)
    requires s.Valid()
    ensures NeverLate(s, most) <==> (most < s.batchTimeout || s.batchSize == 1)
  {
    if most < s.batchTimeout || s.batchSize == 1 {
      forall rounds, lag: nat, t: nat | LagsUpTo(rounds, most) && s.AllPossible(FRESH, rounds) && lag <= most
        ensures NothingLate(s, s.Turns(FRESH, rounds), lag, t)
      {
        TurnsOnTime(s, FRESH, rounds, most);
        var l := s.Turns(FRESH, rounds);
        if l.current != [] && s.Waiting(l, lag, t) {
          WaitIsBounded(s, l, lag, t);
        }
      }
    } else {
      var t := Longest(s) + 1;
      LateTimerStalls(s, most, t);
      var one := [Round(0, Arrival(SolanaEvent(Transaction, 0, ""), 0), 0)];
      assert LagsUpTo(one, most);
      assert !NothingLate(s, s.Turns(FRESH, one), most, t);
    }
  }

  // ---------------------------------------------------------------- the bound is attained

  /** Events arriving one timeout apart, starting with the `i`-th of `n`, and then the timer. */
  function Spaced(s: Settings, i: nat, n: nat): seq<Round>
    requires i <= n
    decreases n - i
  {
    if i == n then [Round(0, TimerFired, 0)]
    else [Round(0, Arrival(SolanaEvent(Transaction, i, ""), i * s.batchTimeout), 0)] + Spaced(s, i + 1, n)
  }

  lemma {:induction false} SpacedRun(s: Settings, i: nat, l: Loop)
    requires s.batchSize >= 2 && s.batchTimeout > 0 && 1 <= i < s.batchSize
    requires |l.current| == i && l.current[0].at == 0 && !l.stopped
    requires l.now == l.lastActivity == (i - 1) * s.batchTimeout
    ensures s.AllPossible(l, Spaced(s, i, s.batchSize - 1))
    ensures var d := s.Turns(l, Spaced(s, i, s.batchSize - 1)).sent;
            |d| == |l.sent| + 1 && d[..|l.sent|] == l.sent
            && d[|l.sent|].batch != [] && d[|l.sent|].batch[0].at == 0 && d[|l.sent|].at == Longest(s)
    decreases s.batchSize - i
  {
    Grows(i - 1, i - 1, s.batchTimeout);
    var rounds := Spaced(s, i, s.batchSize - 1);
    assert s.Remaining(l, 0) == s.batchTimeout;
    var next := s.Turn(l, rounds[0]);
    if i == s.batchSize - 1 {
      assert rounds[1..] == [];
    } else {
      assert rounds[1..] == Spaced(s, i + 1, s.batchSize - 1);
      SpacedRun(s, i + 1, next);
    }
  }

  lemma {:induction false} WaitBoundAttained(s: Settings)
    requires s.batchSize >= 2 && s.batchTimeout > 0
    ensures exists rounds :: LagsUpTo(rounds, 0) && s.AllPossible(FRESH, rounds) &&
              var sent := s.Turns(FRESH, rounds).sent; |sent| == 1 && sent[0].batch != [] && sent[0].at == sent[0].batch[0].at + Longest(s)
  {
    var rounds := Spaced(s, 0, s.batchSize - 1);
    var next := s.Turn(FRESH, rounds[0]);
    assert rounds[1..] == Spaced(s, 1, s.batchSize - 1);
    SpacedRun(s, 1, next);
    SpacedLags(s, 0, s.batchSize - 1);
  }

  lemma {:induction false} SpacedLags(s: Settings, i: nat, n: nat)
    requires i <= n
    ensures LagsUpTo(Spaced(s, i, n), 0)
    decreases n - i
  {
    if i < n {
      SpacedLags(s, i + 1, n);
    }
  }
}

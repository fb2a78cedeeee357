/** Forgetting its clock, the collector's loop runs as the pipeline's collector does. */
module CollectorRefinement {
  import opened Events
  import P = Pipeline
  import opened Collector

  /** The pipeline's collector is where the timed loop is, and worker 0 is ready for what it sends. */
  predicate Shadows(l: Loop, s: P.State) {
    && s.collector == (if l.stopped then P.Stopped else P.Collecting(EventsOf(l.current)))
    && s.batches == [] && |s.workers| > 0 && s.workers[0].Idle?
  }

  /** The same limit and the same timer. */
  predicate SameSettings(c: P.Config, settings: Settings) {
    c.batchSize == settings.batchSize >= 1 && c.timerEnabled == (settings.batchTimeout > 0)
  }

  /** The events that a run receives, in order. */
  function Received(rounds: seq<Round>): seq<SolanaEvent> {
    if rounds == [] then []
    else (if rounds[0].wake.Arrival? then [rounds[0].wake.event] else []) + Received(rounds[1..])
  }

  /** A run that sees the channel closed is a run with the channel closed. */
  predicate ClosedIfSeen(rounds: seq<Round>, s: P.State) {
    (exists i :: 0 <= i < |rounds| && rounds[i].wake.Disconnected?) ==> s.closed
  }

  function BatchesOf(sent: seq<Dispatch>): seq<seq<SolanaEvent>> {
    seq(|sent|, i requires 0 <= i < |sent| => EventsOf(sent[i].batch))
  }

  /** Nothing changed but the collector's variables and those of the pool. */
  predicate Beside(s: P.State, t: P.State) { t.closed == s.closed && t.accepted == s.accepted && t.dropped == s.dropped }

  // ---------------------------------------------------------------- a worker makes room

  lemma {:induction false} OfferRest(c: P.Config, s: P.State) returns (steps: seq<P.Step>)
    requires |s.workers| > 0 && s.workers[0].Working?
    ensures P.Runs(c, s, steps)
    ensures var t := P.After(c, s, steps);
            && |t.workers| == |s.workers| && t.workers[0].Working? && t.workers[0].next >= |t.workers[0].batch|
            && t.collector == s.collector && t.events == s.events && t.batches == s.batches && t.dispatched == s.dispatched
            && Beside(s, t)
    decreases |s.workers[0].batch| - s.workers[0].next
  {
    if s.workers[0].next >= |s.workers[0].batch| {
      steps := [];
    } else {
      P.OneStep(c, s, P.Offer(0));
      var rest := OfferRest(c, P.Apply(c, s, P.Offer(0)));
      P.RunsConcat(c, s, [P.Offer(0)], rest);
      steps := [P.Offer(0)] + rest;
    }
  }

  /** Worker 0 takes the only batch in the channel and works it off. */
  lemma {:induction false} WorkOff(c: P.Config, s: P.State) returns (steps: seq<P.Step>)
    requires |s.workers| > 0 && s.workers[0].Idle? && |s.batches| == 1
    ensures P.Runs(c, s, steps)
    ensures var t := P.After(c, s, steps);
            && |t.workers| > 0 && t.workers[0].Idle? && t.batches == []
            && t.collector == s.collector && t.events == s.events && t.dispatched == s.dispatched && Beside(s, t)
  {
    P.OneStep(c, s, P.Take(0));
    var s1 := P.Apply(c, s, P.Take(0));
    P.OneStep(c, s1, P.StartBatch(0));
    var s2 := P.Apply(c, s1, P.StartBatch(0));
    var offers := OfferRest(c, s2);
    var s3 := P.After(c, s2, offers);
    P.OneStep(c, s3, P.FinishBatch(0));
    P.RunsConcat(c, s2, offers, [P.FinishBatch(0)]);
    P.RunsConcat(c, s1, [P.StartBatch(0)], offers + [P.FinishBatch(0)]);
    P.RunsConcat(c, s, [P.Take(0)], [P.StartBatch(0)] + (offers + [P.FinishBatch(0)]));
    steps := [P.Take(0)] + ([P.StartBatch(0)] + (offers + [P.FinishBatch(0)]));
  }

  /** The batch in the collector's hand is sent and worked off. */
  lemma {:induction false} SendOff(c: P.Config, s: P.State) returns (steps: seq<P.Step>)
    requires s.collector.Sending? && s.batches == [] && |s.workers| > 0 && s.workers[0].Idle?
    ensures P.Runs(c, s, steps)
    ensures var t := P.After(c, s, steps);
            && |t.workers| > 0 && t.workers[0].Idle? && t.batches == []
            && t.collector == (if s.collector.last then P.Stopped else P.Collecting([]))
            && t.events == s.events && t.dispatched == s.dispatched + [s.collector.batch] && Beside(s, t)
  {
    assert !s.workers[0].Exited?;
    P.OneStep(c, s, P.CollectorSend);
    var s1 := P.Apply(c, s, P.CollectorSend);
    var rest := WorkOff(c, s1);
    P.RunsConcat(c, s, [P.CollectorSend], rest);
    steps := [P.CollectorSend] + rest;
  }

  // ---------------------------------------------------------------- one pass

  /** A pass that wakes the collector with `wake` and perhaps sends. */
  lemma {:induction false} WakeAndSend(c: P.Config, s: P.State, wake: P.Step) returns (steps: seq<P.Step>)
    requires wake in {P.CollectorReceive, P.CollectorTimeout, P.CollectorDisconnected} && P.Enabled(c, s, wake)
    requires s.batches == [] && |s.workers| > 0 && s.workers[0].Idle?
    ensures P.Runs(c, s, steps)
    ensures var t, k := P.After(c, s, steps), P.Apply(c, s, wake).collector;
            && |t.workers| > 0 && t.workers[0].Idle? && t.batches == [] && Beside(s, t)
            && t.events == P.Apply(c, s, wake).events
            && t.collector == (if !k.Sending? then k else if k.last then P.Stopped else P.Collecting([]))
            && t.dispatched == (if k.Sending? then s.dispatched + [k.batch] else s.dispatched)
  {
    P.OneStep(c, s, wake);
    var s1 := P.Apply(c, s, wake);
    steps := [wake];
    if s1.collector.Sending? {
      var rest := SendOff(c, s1);
      P.RunsConcat(c, s, [wake], rest);
      steps := [wake] + rest;
    }
  }

  function WakeStep(wake: Wake): P.Step {
    match wake
    case Arrival(_, _) => P.CollectorReceive
    case TimerFired => P.CollectorTimeout
    case Disconnected(_) => P.CollectorDisconnected
  }

  /** `steps` take the pipeline from shadowing `l` to shadowing `l'`, dispatching the same batches and leaving `left` queued. */
  predicate Follows(c: P.Config, s: P.State, steps: seq<P.Step>, l: Loop, l': Loop, left: seq<SolanaEvent>) {
    && P.Runs(c, s, steps)
    && var t := P.After(c, s, steps);
       && Shadows(l', t) && Beside(s, t) && t.events == left
       && l.sent <= l'.sent && t.dispatched == s.dispatched + BatchesOf(l'.sent[|l.sent|..])
  }

  lemma {:induction false} OnePass(c: P.Config, settings: Settings, l: Loop, r: Round, s: P.State) returns (steps: seq<P.Step>)
    requires SameSettings(c, settings) && settings.Possible(l, r) && Shadows(l, s)
    requires r.wake.Arrival? ==> s.events != [] && s.events[0] == r.wake.event
    requires r.wake.Disconnected? ==> s.events == [] && s.closed
    ensures Follows(c, s, steps, l, settings.Turn(l, r), if r.wake.Arrival? then s.events[1..] else s.events)
  {
    var l' := settings.Turn(l, r);
    if r.wake.Arrival? {
      assert EventsOf(l.current + [Stamped(r.wake.event, r.wake.at)]) == EventsOf(l.current) + [r.wake.event];
    }
    steps := WakeAndSend(c, s, WakeStep(r.wake));
    if |l'.sent| > |l.sent| {
      var d := l'.sent[|l.sent|];
      assert l'.sent[|l.sent|..] == [d];
      assert BatchesOf([d]) == [EventsOf(d.batch)];
    } else {
      assert l'.sent[|l.sent|..] == [];
    }
  }

  // ---------------------------------------------------------------- whole runs

  /**
   * Every run of the timed loop, with its arrivals, timeouts and disconnection, is a run of the pipeline with the
   * clock forgotten: the same events received, the same batches dispatched, the same events left in hand.
   */
  lemma {:induction false} ForgettingTheClock(c: P.Config, settings: Settings, l: Loop, rounds: seq<Round>, s: P.State)
    returns (steps: seq<P.Step>)
    requires SameSettings(c, settings) && settings.AllPossible(l, rounds) && Shadows(l, s)
    requires s.events == Received(rounds) && ClosedIfSeen(rounds, s)
    ensures Follows(c, s, steps, l, settings.Turns(l, rounds), [])
    decreases |rounds|
  {
    if rounds == [] {
      steps := [];
      assert l.sent[|l.sent|..] == [] && BatchesOf([]) == [];
    } else {
      var l1 := settings.Turn(l, rounds[0]);
      var first := OnePass(c, settings, l, rounds[0], s);
      var s1 := P.After(c, s, first);
      var rest := ForgettingTheClock(c, settings, l1, rounds[1..], s1);
      FollowsJoin(c, s, first, rest, l, l1, settings.Turns(l1, rounds[1..]), Received(rounds[1..]));
      steps := first + rest;
    }
  }

  lemma {:induction false} FollowsJoin(c: P.Config, s: P.State, first: seq<P.Step>, rest: seq<P.Step>, l: Loop, l1: Loop, l2: Loop,
                     between: seq<SolanaEvent>)
    requires Follows(c, s, first, l, l1, between) && Follows(c, P.After(c, s, first), rest, l1, l2, [])
    ensures Follows(c, s, first + rest, l, l2, [])
  {
    P.RunsConcat(c, s, first, rest);
  }
}

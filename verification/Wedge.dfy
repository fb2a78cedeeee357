/** Exactly which configurations let the backpressure signal get stuck. */
module Wedge {
  import opened Arithmetic
  import opened Events
  import opened Resources
  import opened Words
  import opened Pipeline
  import opened PipelineTheorems

  /** The signal is active, and nothing is left in the pipeline whose completion could clear it. */
  ghost predicate Wedged(s: State) {
    && s.gauges.signals > 0
    && s.consumer.AtGate?
    && s.events == [] && s.batches == []
    && (s.collector.Stopped? || s.collector == Collecting([]))
    && (forall i :: 0 <= i < |s.workers| ==> s.workers[i].Idle? || s.workers[i].Exited?)
  }

  /** A wedged pipeline never accepts another event. */
  lemma {:induction false} WedgedForever(c: Config, s: State, steps: seq<Step>)
    requires Wedged(s) && Runs(c, s, steps)
    ensures Wedged(After(c, s, steps))
    ensures After(c, s, steps).accepted == s.accepted
    decreases |steps|
  {
    if steps != [] {
      assert Wedged(Apply(c, s, steps[0]));
      WedgedForever(c, Apply(c, s, steps[0]), steps[1..]);
    }
  }

  lemma {:induction false} ReleasableNeverWedges(c: Config, s: State)
    requires c.Valid() && Reachable(c, s)
    requires c.points.messagesRelease >= 1 && c.points.memoryRelease >= 1
    ensures !Wedged(s)
  {
    BackpressureNeverWedges(c, s);
  }

  const SAMPLE: SolanaEvent := SolanaEvent(Transaction, 0, "signature")

  function Samples(n: nat): seq<SolanaEvent> { seq(n, _ => SAMPLE) }

  /** `n` events accepted and collected, nothing else done. */
  function Loaded(c: Config, n: nat): State {
    Init(c).(collector := Collecting(Samples(n)), accepted := Samples(n))
  }

  /** One trip of the consumer round its loop, and the collector receiving what it delivered. */
  lemma {:induction false} FeedOne(c: Config, s: State) returns (t: State)
    requires c.Valid() && Reachable(c, s)
    requires s.consumer.AtGate? && !s.closed && s.events == [] && s.collector.Collecting?
    requires s.gauges == Gauges(0, 0, 0) && 1 <= c.points.memoryTrigger
    ensures Reachable(c, t)
    ensures t == s.(accepted := s.accepted + [SAMPLE], collector := Collect(c, s.collector.current, SAMPLE))
  {
    ReachableStep(c, s, Gate);
    var s1 := Apply(c, s, Gate);
    ReachableStep(c, s1, CheckResources);
    var s2 := Apply(c, s1, CheckResources);
    ReachableStep(c, s2, Receive(SAMPLE));
    var s3 := Apply(c, s2, Receive(SAMPLE));
    ReachableStep(c, s3, AddEvent);
    var s4 := Apply(c, s3, AddEvent);
    ReachableStep(c, s4, CollectorReceive);
    t := Apply(c, s4, CollectorReceive);
  }

  lemma {:induction false} Feed(c: Config, n: nat)
    requires c.Valid() && n < c.batchSize && 1 <= c.points.memoryTrigger
    ensures Reachable(c, Loaded(c, n))
  {
    if n == 0 {
      assert Runs(c, Init(c), []) && After(c, Init(c), []) == Init(c);
      assert Samples(0) == [];
      assert Loaded(c, 0) == Init(c);
    } else {
      Feed(c, n - 1);
      var t := FeedOne(c, Loaded(c, n - 1));
      assert Samples(n - 1) + [SAMPLE] == Samples(n);
    }
  }

  /** One full batch is being worked on and the signal was raised meanwhile; `next` events have been offered. */
  function Raised(c: Config, next: nat): State
    requires c.workers >= 1 && next <= c.batchSize
  {
    var all := Samples(c.batchSize);
    State(false, false, [], Collecting([]), [], seq(c.workers, _ => Idle)[0 := Working(0, all, next)],
          Gauges(c.batchSize, 1, if c.batchSize >= c.points.maxInFlight then 0 else Estimate(c.batchSize)),
          AtGate, all, [], [all], 1, {}, Samples(next))
  }

  lemma {:induction false} LoadFits(c: Config)
    requires c.Valid()
    ensures c.batchSize * BYTES_PER_MESSAGE < WORD
  {
    assert c.workers * c.batchSize >= c.batchSize by { MultiplyOrdered(1, c.workers, c.batchSize); }
  }

  /** A full batch has been cut and is about to be sent. */
  function Cut(c: Config): State {
    Init(c).(collector := Sending(Samples(c.batchSize), false), accepted := Samples(c.batchSize))
  }

  /** The first worker has taken it. */
  function TakenUp(c: Config): State
    requires c.workers >= 1
  {
    Init(c).(workers := seq(c.workers, _ => Idle)[0 := Received(0, Samples(c.batchSize))],
             accepted := Samples(c.batchSize), dispatched := [Samples(c.batchSize)], taken := 1)
  }

  lemma {:induction false} ReachCut(c: Config)
    requires c.Valid() && 1 <= c.points.memoryTrigger
    ensures Reachable(c, Cut(c))
  {
    Feed(c, c.batchSize - 1);
    var s := FeedOne(c, Loaded(c, c.batchSize - 1));
    assert Samples(c.batchSize - 1) + [SAMPLE] == Samples(c.batchSize);
  }

  lemma {:induction false} ReachTakenUp(c: Config)
    requires c.Valid() && 1 <= c.points.memoryTrigger
    ensures Reachable(c, TakenUp(c))
  {
    ReachCut(c);
    var s0 := Cut(c);
    assert !s0.workers[0].Exited?;
    ReachableStep(c, s0, CollectorSend);
    var s1 := Apply(c, s0, CollectorSend);
    ReachableStep(c, s1, Take(0));
    assert Apply(c, s1, Take(0)) == TakenUp(c);
  }

  /** It has started, and the consumer has passed its gate. */
  function AboutToCheck(c: Config): State
    requires c.workers >= 1
  {
    TakenUp(c).(workers := seq(c.workers, _ => Idle)[0 := Working(0, Samples(c.batchSize), 0)],
                gauges := Start(Init(c).gauges, c.batchSize), consumer := PastGate)
  }

  lemma {:induction false} ReachAboutToCheck(c: Config)
    requires c.Valid() && 1 <= c.points.memoryTrigger
    ensures Reachable(c, AboutToCheck(c))
  {
    ReachTakenUp(c);
    var s0 := TakenUp(c);
    ReachableStep(c, s0, StartBatch(0));
    var s1 := Apply(c, s0, StartBatch(0));
    ReachableStep(c, s1, Gate);
    assert s0.workers[0 := Working(0, Samples(c.batchSize), 0)] == AboutToCheck(c).workers;
    assert Apply(c, s1, Gate) == AboutToCheck(c);
  }

  /** One full batch in flight fails the check when a release point is 0, because its trigger is then at most 1. */
  lemma {:induction false} Raise(c: Config)
    requires c.Valid() && 1 <= c.points.memoryTrigger
    requires c.points.messagesRelease == 0 || c.points.memoryRelease == 0
    ensures Reachable(c, Raised(c, 0))
  {
    LoadFits(c);
    ReachAboutToCheck(c);
    var s := AboutToCheck(c);
    ReachableStep(c, s, CheckResources);
    assert Samples(0) == [];
    assert Apply(c, s, CheckResources) == Raised(c, 0);
  }

  lemma {:induction false} WorkThrough(c: Config, next: nat)
    requires c.Valid() && next <= c.batchSize && 1 <= c.points.memoryTrigger
    requires c.points.messagesRelease == 0 || c.points.memoryRelease == 0
    ensures Reachable(c, Raised(c, next))
  {
    if next == 0 {
      Raise(c);
    } else {
      WorkThrough(c, next - 1);
      var s := Raised(c, next - 1);
      ReachableStep(c, s, Offer(0));
      assert Samples(next - 1) + [SAMPLE] == Samples(next);
      assert Apply(c, s, Offer(0)) == Raised(c, next);
    }
  }

  lemma {:induction false} UnreleasableWedges(c: Config) returns (s: State)
    requires c.Valid()
    requires c.points.messagesRelease == 0 || c.points.memoryRelease == 0
    ensures Reachable(c, s) && Wedged(s)
  {
    if c.points.memoryTrigger == 0 {
      assert Runs(c, Init(c), []) && After(c, Init(c), []) == Init(c);
      ReachableStep(c, Init(c), Gate);
      var s1 := Apply(c, Init(c), Gate);
      ReachableStep(c, s1, CheckResources);
      s := Apply(c, s1, CheckResources);
    } else {
      WorkThrough(c, c.batchSize);
      var s1 := Raised(c, c.batchSize);
      LoadFits(c);
      ReachableStep(c, s1, FinishBatch(0));
      s := Apply(c, s1, FinishBatch(0));
      NoWrap(c.points, s1.gauges, c.batchSize);
    }
  }

  /** With every manager method atomic, backpressure can wedge exactly when truncation makes a release point 0. */
  lemma {:induction false} WedgesExactlyWhenUnreleasable(c: Config)
    requires c.Valid()
    ensures (exists s :: Reachable(c, s) && Wedged(s)) <==> (c.points.messagesRelease == 0 || c.points.memoryRelease == 0)
  {
    if c.points.messagesRelease == 0 || c.points.memoryRelease == 0 {
      var s := UnreleasableWedges(c);
    } else {
      forall s | Reachable(c, s) ensures !Wedged(s) {
        ReleasableNeverWedges(c, s);
      }
    }
  }

  /** In terms of the limits: one message in flight at most, or less than 1/0.7 bytes of memory budget. */
  lemma {:induction false} WedgingLimits(shape: Shape, limits: Limits)
    requires shape.Valid() && limits.Valid()
    ensures var c := shape.With(limits);
            (exists s :: Reachable(c, s) && Wedged(s)) <==>
            (limits.maxMessagesInFlight == 1
             || limits.Budget() * 0.70 < 1.0)
  {
    WedgesExactlyWhenUnreleasable(shape.With(limits));
  }
}

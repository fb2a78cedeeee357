/** The pipeline's guarantees, for every reachable state under every interleaving. */
module PipelineTheorems {
  import opened Arithmetic
  import opened Sequences
  import opened Resources
  import opened Pipeline
  import opened PipelineInvariant

  /** Batch `k` is still in the batch channel. */
  predicate Queued(s: State, k: nat) { s.taken <= k < |s.dispatched| }

  /** Exactly one worker holds batch `k`, with its contents intact. */
  ghost predicate HeldOnce(s: State, k: nat) {
    && k < |s.dispatched|
    && (exists i :: 0 <= i < |s.workers| && s.workers[i].Holds(k) && s.workers[i].batch == s.dispatched[k])
    && (forall i, j :: 0 <= i < |s.workers| && 0 <= j < |s.workers| && s.workers[i].Holds(k) && s.workers[j].Holds(k) ==> i == j)
  }

  ghost predicate Held(s: State, k: nat) { exists i :: 0 <= i < |s.workers| && s.workers[i].Holds(k) }

  lemma {:induction false} ConservationAndOrder(c: Config, s: State)
    requires c.Valid() && Reachable(c, s)
    ensures s.accepted == Flat(s.dispatched) + s.collector.InHand() + s.events
    ensures |s.batches| <= |s.dispatched| && s.batches == s.dispatched[|s.dispatched| - |s.batches|..]
    ensures !Enabled(c, s, CollectorSendFails)
  {
    ReachableInv(c, s);
    SendNeverFails(c, s);
  }

  /** Each dispatched batch is in exactly one place: queued, held by one worker, or finished. */
  lemma {:induction false} OnePlace(c: Config, s: State, k: nat)
    requires c.Valid() && Reachable(c, s) && k < |s.dispatched|
    ensures Queued(s, k) <==> !HeldOnce(s, k) && k !in s.finished
    ensures HeldOnce(s, k) <==> !Queued(s, k) && k !in s.finished
    ensures k in s.finished <==> !Queued(s, k) && !HeldOnce(s, k)
    ensures Held(s, k) <==> HeldOnce(s, k)
  {
    ReachableInv(c, s);
    if Held(s, k) {
      var i :| 0 <= i < |s.workers| && s.workers[i].Holds(k);
      assert HeldOnce(s, k);
      assert k < s.taken && k !in s.finished;
    }
    if k < s.taken && k !in s.finished {
      assert Held(s, k);
    }
  }

  /** Accepted events that do not yet belong to a finished batch. */
  function Unfinished(s: State): int
    requires s.taken <= |s.dispatched|
  {
    |s.accepted| - FinishedEvents(s.dispatched, s.finished, s.taken)
  }

  lemma {:induction false} InFlightAccounting(c: Config, s: State)
    requires c.Valid() && Reachable(c, s)
    ensures s.gauges.inFlight == Sum(s.workers, Busy) <= c.workers * c.batchSize
  {
    ReachableInv(c, s);
    InFlightBound(c, s);
  }

  lemma {:induction false} UnfinishedBound(c: Config, s: State)
    requires c.Valid() && Reachable(c, s)
    ensures s.taken <= |s.dispatched|
    ensures 0 <= Unfinished(s) <= c.queueSize + c.batchSize * (1 + c.BatchQueueCapacity() + c.workers)
    ensures forall k :: 0 <= k < |s.dispatched| ==> 1 <= |s.dispatched[k]| <= c.batchSize
  {
    ReachableInv(c, s);
    UnfinishedParts(s);
    QueuedEvents(c, s);
    CarriedEvents(c, s);
    Distribute(c.batchSize, |s.batches|, c.BatchQueueCapacity(), c.workers);
  }

  /** Unfinished events are in the event channel, in the collector's hand, in the batch channel, or with a worker. */
  lemma {:induction false} UnfinishedParts(s: State)
    requires Conserved(s) && Balanced(s)
    ensures Unfinished(s) == |s.events| + |s.collector.InHand()| + |Flat(s.batches)| + Sum(s.workers, Carried)
  {
    assert s.dispatched == s.dispatched[..s.taken] + s.batches;
    FlatConcat(s.dispatched[..s.taken], s.batches);
  }

  lemma {:induction false} QueuedEvents(c: Config, s: State)
    requires Conserved(s) && Sized(c, s)
    ensures |Flat(s.batches)| <= |s.batches| * c.batchSize
  {
    forall k | 0 <= k < |s.batches| ensures |s.batches[k]| <= c.batchSize {
      assert s.batches[k] == s.dispatched[s.taken + k];
    }
    FlatLength(s.batches, c.batchSize);
  }

  lemma {:induction false} CarriedEvents(c: Config, s: State)
    requires Sized(c, s) && Placed(s)
    ensures Sum(s.workers, Carried) <= c.workers * c.batchSize
  {
    forall i | 0 <= i < |s.workers| ensures Carried(s.workers[i]) <= c.batchSize {
      HeldSize(c, s, i);
    }
    SumBound(s.workers, Carried, c.batchSize);
  }

  lemma {:induction false} Distribute(size: nat, queued: nat, capacity: nat, workers: nat)
    requires queued <= capacity
    ensures queued * size + size + workers * size <= size * (1 + capacity + workers)
  {
    assert queued * size <= capacity * size by { MultiplyOrdered(queued, capacity, size); }
    assert size * (1 + capacity + workers) == size + size * capacity + size * workers;
  }

  /** An active signal always has a completion pending that can clear it. */
  lemma {:induction false} BackpressureNeverWedges(c: Config, s: State)
    requires c.Valid() && Reachable(c, s)
    requires c.points.messagesRelease >= 1 && c.points.memoryRelease >= 1
    ensures s.gauges.signals <= 1
    ensures s.gauges.signals == 1 ==> !Released(c.points, s.gauges.inFlight) && s.gauges.inFlight > 0
    ensures s.gauges.signals == 1 ==> exists i :: 0 <= i < |s.workers| && s.workers[i].Working?
    ensures (forall i :: 0 <= i < |s.workers| ==> !s.workers[i].Working?) ==> s.gauges.signals == 0
  {
    ReachableInv(c, s);
    if forall i :: 0 <= i < |s.workers| ==> !s.workers[i].Working? {
      SumOfNothing(s.workers, Busy);
    }
  }

  /** The signal counter never wraps below zero: a completion only takes away a signal that is there. */
  lemma {:induction false} SignalNeverUnderflows(c: Config, s: State, w: nat)
    requires c.Valid() && Reachable(c, s) && Enabled(c, s, FinishBatch(w))
    ensures var t := Apply(c, s, FinishBatch(w));
            t.gauges.signals == (if Released(c.points, t.gauges.inFlight) then 0 else s.gauges.signals)
    ensures Apply(c, s, FinishBatch(w)).gauges.inFlight == s.gauges.inFlight - |s.workers[w].batch|
  {
    ReachableInv(c, s);
    InFlightBound(c, s);
    NoWrap(c.points, s.gauges, |s.workers[w].batch|);
    assert Busy(s.workers[w]) <= s.gauges.inFlight;
  }

  /** Sending waits exactly while a channel is full: the batch channel at max(2 * workers, 10), the event channel at its size. */
  lemma {:induction false} WaitsExactlyWhenFull(c: Config, s: State)
    requires c.Valid() && Reachable(c, s)
    ensures s.collector.Sending? ==>
              (!Enabled(c, s, CollectorSend) <==> |s.batches| >= 10 && |s.batches| == (if c.workers >= 5 then 2 * c.workers else 10))
    ensures s.consumer.Delivering? && !s.closed ==> (!Enabled(c, s, AddEvent) <==> |s.events| == c.queueSize)
  {
    ReachableInv(c, s);
    SendNeverFails(c, s);
  }

  /** When the whole pool at full batches stays under both triggers, no resource check of any run fails. */
  lemma {:induction false} ChecksNeverFail(c: Config, s: State)
    requires c.Valid() && Reachable(c, s)
    requires c.workers * c.batchSize < c.points.maxInFlight
    requires c.workers * c.batchSize * BYTES_PER_MESSAGE < c.points.memoryTrigger
    ensures Check(c.points, s.gauges).1
  {
    ReachableInv(c, s);
    InFlightBound(c, s);
    LightLoadPasses(c.points, s.gauges, c.workers * c.batchSize);
  }

  lemma {:induction false} LightLoadPasses(t: Thresholds, g: Gauges, limit: nat)
    requires g.inFlight <= limit < t.maxInFlight && limit * BYTES_PER_MESSAGE < t.memoryTrigger
    ensures Check(t, g).1
  {
    assert g.inFlight * BYTES_PER_MESSAGE <= limit * BYTES_PER_MESSAGE;
    assert Estimate(g.inFlight) <= g.inFlight * BYTES_PER_MESSAGE;
  }

  /** With one worker the processor sees the accepted events in the order they were accepted. */
  lemma {:induction false} SingleWorkerOrder(c: Config, s: State)
    requires c.Valid() && Reachable(c, s) && c.workers == 1
    ensures s.offered <= s.accepted
  {
    ReachableInv(c, s);
    assert s.dispatched == s.dispatched[..s.taken] + s.batches;
    FlatConcat(s.dispatched[..s.taken], s.batches);
    FirstPart(s.offered, Unoffered(s.workers[0]), Flat(s.batches), s.collector.InHand(), s.events);
  }

  lemma {:induction false} FirstPart<T>(a: seq<T>, b: seq<T>, c: seq<T>, d: seq<T>, e: seq<T>)
    ensures a <= ((a + b) + c) + d + e
  {
    assert ((a + b) + c) + d + e == a + (b + c + d + e);
  }

  // ---------------------------------------------------------------- without a timer

  /** Every batch is full, but for the last one of all, which closing the channel flushes. */
  ghost predicate FullBatches(c: Config, s: State) {
    && (forall k :: 0 <= k < |s.dispatched| ==>
         |s.dispatched[k]| == c.batchSize || (k == |s.dispatched| - 1 && s.collector.Stopped?))
    && (s.collector.Sending? && !s.collector.last ==> |s.collector.batch| == c.batchSize)
    && (s.collector.Collecting? ==> |s.collector.current| < c.batchSize)
  }

  lemma {:induction false} StepFullBatches(c: Config, s: State, step: Step)
    requires c.Valid() && !c.timerEnabled && FullBatches(c, s) && Enabled(c, s, step) && !step.CollectorSendFails?
    ensures FullBatches(c, Apply(c, s, step))
  {
  }

  lemma {:induction false} RunFullBatches(c: Config, s: State, steps: seq<Step>)
    requires c.Valid() && !c.timerEnabled && FullBatches(c, s) && Inv(c, s) && Runs(c, s, steps)
    ensures FullBatches(c, After(c, s, steps))
    decreases |steps|
  {
    if steps != [] {
      SendNeverFails(c, s);
      StepInv(c, s, steps[0]);
      StepFullBatches(c, s, steps[0]);
      RunFullBatches(c, Apply(c, s, steps[0]), steps[1..]);
    }
  }

  /** With `batch_timeout` 0 the timer never cuts a batch: all are full but the one flushed at the end. */
  lemma {:induction false} FullWithoutTimer(c: Config, s: State)
    requires c.Valid() && !c.timerEnabled && Reachable(c, s)
    ensures forall k :: 0 <= k < |s.dispatched| ==>
              |s.dispatched[k]| == c.batchSize || (k == |s.dispatched| - 1 && s.closed && s.collector.Stopped?)
  {
    var steps :| Runs(c, Init(c), steps) && After(c, Init(c), steps) == s;
    InitInv(c);
    RunFullBatches(c, Init(c), steps);
    ReachableInv(c, s);
  }
}

/** Shutdown: every run of internal steps is finite, and ends with everything accepted having been offered. */
module Drain {
  import opened Events
  import opened Sequences
  import opened Resources
  import opened Pipeline
  import opened PipelineInvariant

  /** Steps the pipeline takes on its own, as opposed to the consumer, `shutdown` and dropping the object. */
  predicate Internal(step: Step) {
    match step
    case CollectorReceive => true
    case CollectorTimeout => true
    case CollectorDisconnected => true
    case CollectorSend => true
    case CollectorSendFails => true
    case Take(_) => true
    case StartBatch(_) => true
    case Offer(_) => true
    case FinishBatch(_) => true
    case Exit(_) => true
    case _ => false
  }

  // An event gets cheaper with each stage it passes: queued 7, collecting 6, sending 5, dispatched 4, received 3,
  // being worked on 2, offered 1, finished 0.

  function CollectorCost(k: Collector): nat {
    match k
    case Collecting(current) => 6 * |current| + 1
    case Sending(batch, _) => 5 * |batch| + 1
    case Stopped => 0
  }

  function WorkerCost(w: Worker): nat {
    match w
    case Idle => 1
    case Received(_, batch) => 3 * |batch| + 1
    case Working(_, batch, next) => |batch| + (if next <= |batch| then |batch| - next else 0) + 1
    case Exited => 0
  }

  function Cost(s: State): nat {
    7 * |s.events| + CollectorCost(s.collector) + 4 * |Flat(s.batches)| + Sum(s.workers, WorkerCost)
  }

  lemma {:induction false} FlatPop(batches: seq<seq<SolanaEvent>>)
    requires |batches| > 0
    ensures |Flat(batches)| == |batches[0]| + |Flat(batches[1..])|
  {
    assert batches == [batches[0]] + batches[1..];
    FlatCons(batches[0], batches[1..]);
  }

  lemma {:induction false} WorkerStepDecreases(s: State, t: State, w: nat, held: Worker)
    requires w < |s.workers| && t.workers == s.workers[w := held]
    requires t.events == s.events && t.collector == s.collector
    requires 4 * |Flat(t.batches)| + WorkerCost(held) < 4 * |Flat(s.batches)| + WorkerCost(s.workers[w])
    ensures Cost(t) < Cost(s)
  {
    SumUpdate(s.workers, w, held, WorkerCost);
  }

  lemma {:induction false} InternalStepDecreases(c: Config, s: State, step: Step)
    requires c.Valid() && Inv(c, s) && Enabled(c, s, step) && Internal(step)
    ensures Cost(Apply(c, s, step)) < Cost(s)
  {
    SendNeverFails(c, s);
    match step
    case Take(w) => TakeDecreases(c, s, w);
    case StartBatch(w) => HolderDecreases(c, s, step, w);
    case Offer(w) => HolderDecreases(c, s, step, w);
    case FinishBatch(w) => HolderDecreases(c, s, step, w);
    case Exit(w) => WorkerStepDecreases(s, Apply(c, s, step), w, Exited);
    case _ => CollectorDecreases(c, s, step);
  }

  lemma {:induction false} CollectorDecreases(c: Config, s: State, step: Step)
    requires Sized(c, s) && Enabled(c, s, step) && ByCollector(step)
    ensures Cost(Apply(c, s, step)) < Cost(s)
  {
    if step.CollectorSend? {
      FlatSnoc(s.batches, s.collector.batch);
    }
  }

  lemma {:induction false} TakeDecreases(c: Config, s: State, w: nat)
    requires Conserved(s) && Sized(c, s) && Enabled(c, s, Take(w))
    ensures Cost(Apply(c, s, Take(w))) < Cost(s)
  {
    FlatPop(s.batches);
    assert s.batches[0] == s.dispatched[s.taken];
    WorkerStepDecreases(s, Apply(c, s, Take(w)), w, Received(s.taken, s.batches[0]));
  }

  lemma {:induction false} HolderDecreases(c: Config, s: State, step: Step, w: nat)
    requires Sized(c, s) && Placed(s) && Enabled(c, s, step) && step in {StartBatch(w), Offer(w), FinishBatch(w)}
    ensures Cost(Apply(c, s, step)) < Cost(s)
  {
    HeldSize(c, s, w);
    WorkerStepDecreases(s, Apply(c, s, step), w, Apply(c, s, step).workers[w]);
  }

  /** After `shutdown()` nothing from outside adds work. */
  lemma {:induction false} ExternalStepKeepsCost(c: Config, s: State, step: Step)
    requires Enabled(c, s, step) && !Internal(step) && s.closed
    ensures Cost(Apply(c, s, step)) == Cost(s) && Apply(c, s, step).closed
    ensures Apply(c, s, step).accepted == s.accepted
  {
  }

  function InternalSteps(steps: seq<Step>): nat {
    if steps == [] then 0 else (if Internal(steps[0]) then 1 else 0) + InternalSteps(steps[1..])
  }

  /** Whatever else happens after `shutdown()`, the number of internal steps is bounded by the cost at that point. */
  lemma {:induction false} DrainTerminates(c: Config, s: State, steps: seq<Step>)
    requires c.Valid() && Inv(c, s) && s.closed && Runs(c, s, steps)
    ensures Cost(After(c, s, steps)) + InternalSteps(steps) <= Cost(s)
    ensures After(c, s, steps).accepted == s.accepted && After(c, s, steps).closed
    decreases |steps|
  {
    if steps != [] {
      var step, t := steps[0], Apply(c, s, steps[0]);
      StepInv(c, s, step);
      if Internal(step) {
        InternalStepDecreases(c, s, step);
      } else {
        ExternalStepKeepsCost(c, s, step);
      }
      DrainTerminates(c, t, steps[1..]);
    }
  }

  ghost predicate Quiescent(c: Config, s: State) {
    forall step :: Internal(step) ==> !Enabled(c, s, step)
  }

  ghost predicate Drained(s: State) {
    && s.events == [] && s.collector.Stopped? && s.batches == []
    && (forall i :: 0 <= i < |s.workers| ==> s.workers[i].Idle? || s.workers[i].Exited?)
    && multiset(s.offered) == multiset(s.accepted)
  }

  lemma {:induction false} QuiescentPool(c: Config, s: State)
    requires Quiescent(c, s)
    ensures forall i :: 0 <= i < |s.workers| ==> s.workers[i].Idle? || s.workers[i].Exited?
  {
    forall i | 0 <= i < |s.workers| ensures s.workers[i].Idle? || s.workers[i].Exited? {
      assert Internal(StartBatch(i)) && !Enabled(c, s, StartBatch(i));
      assert Internal(Offer(i)) && !Enabled(c, s, Offer(i));
      assert Internal(FinishBatch(i)) && !Enabled(c, s, FinishBatch(i));
    }
  }

  lemma {:induction false} QuiescentQueues(c: Config, s: State)
    requires c.Valid() && Sized(c, s) && Staged(s) && s.closed && Quiescent(c, s)
    ensures s.events == [] && s.collector.Stopped? && s.batches == []
  {
    QuiescentPool(c, s);
    SendNeverFails(c, s);
    assert Internal(CollectorReceive) && !Enabled(c, s, CollectorReceive);
    assert Internal(CollectorDisconnected) && !Enabled(c, s, CollectorDisconnected);
    assert Internal(CollectorSend) && !Enabled(c, s, CollectorSend);
    assert Internal(Take(0)) && !Enabled(c, s, Take(0));
    assert s.workers[0].Idle? || s.workers[0].Exited?;
  }

  /** No internal step left after `shutdown()` means everything accepted was offered and the counters are back to zero. */
  lemma {:induction false} QuiescentIsDrained(c: Config, s: State)
    requires c.Valid() && Reachable(c, s) && s.closed && Quiescent(c, s)
    ensures Drained(s)
    ensures s.gauges.inFlight == 0
    ensures c.points.messagesRelease >= 1 && c.points.memoryRelease >= 1 ==> s.gauges.signals == 0
    ensures c.workers == 1 ==> s.offered == s.accepted
  {
    ReachableInv(c, s);
    QuiescentPool(c, s);
    QuiescentQueues(c, s);
    EverythingOffered(s);
    RestingPool(s.workers);
  }

  /** With the channels and the collector empty and the pool at rest, what was accepted is what was offered. */
  lemma {:induction false} EverythingOffered(s: State)
    requires Conserved(s) && Offered(s) && InOrder(s)
    requires s.events == [] && s.collector.Stopped? && s.batches == []
    requires forall i :: 0 <= i < |s.workers| ==> s.workers[i].Idle? || s.workers[i].Exited?
    ensures multiset(s.offered) == multiset(s.accepted)
    ensures |s.workers| == 1 ==> s.offered == s.accepted
  {
    RestingPool(s.workers);
    assert s.dispatched[..s.taken] == s.dispatched;
    assert s.accepted == Flat(s.dispatched);
    if |s.workers| == 1 {
      assert Unoffered(s.workers[0]) == [] && s.offered + [] == s.offered;
    }
  }

  lemma {:induction false} QuiescentIsFinished(c: Config, s: State, k: nat)
    requires c.Valid() && Reachable(c, s) && s.closed && Quiescent(c, s) && k < |s.dispatched|
    ensures k in s.finished
    ensures s.dropped ==> AllExited(s)
  {
    ReachableInv(c, s);
    QuiescentPool(c, s);
    QuiescentQueues(c, s);
    assert forall i :: 0 <= i < |s.workers| ==> !s.workers[i].Holds(k);
    forall i | 0 <= i < |s.workers| && s.dropped ensures s.workers[i].Exited? {
      assert Internal(Exit(i)) && !Enabled(c, s, Exit(i));
    }
  }

  /** From any state after `shutdown()` the pipeline can run to the end on its own steps. */
  lemma {:induction false} CanDrain(c: Config, s: State) returns (steps: seq<Step>)
    requires c.Valid() && Inv(c, s) && s.closed
    ensures Runs(c, s, steps) && InternalSteps(steps) == |steps|
    ensures Quiescent(c, After(c, s, steps))
    decreases Cost(s)
  {
    if Quiescent(c, s) {
      steps := [];
    } else {
      var step :| Internal(step) && Enabled(c, s, step);
      StepInv(c, s, step);
      InternalStepDecreases(c, s, step);
      var rest := CanDrain(c, Apply(c, s, step));
      steps := [step] + rest;
      OneMoreStep(c, s, step, rest);
    }
  }

  lemma {:induction false} OneMoreStep(c: Config, s: State, step: Step, rest: seq<Step>)
    requires Enabled(c, s, step) && Runs(c, Apply(c, s, step), rest)
    ensures Runs(c, s, [step] + rest) && After(c, s, [step] + rest) == After(c, Apply(c, s, step), rest)
    ensures InternalSteps([step] + rest) == (if Internal(step) then 1 else 0) + InternalSteps(rest)
  {
    assert ([step] + rest)[1..] == rest;
  }

  /** Conversely a drained pipeline that has not been dropped has nothing left to do. */
  lemma {:induction false} DrainedIsQuiescent(c: Config, s: State)
    requires Drained(s) && !s.dropped
    ensures Quiescent(c, s)
  {
  }
}

/** Exactly when interleaved atomic operations leave backpressure stuck, or wrap the signal counter below zero. */
module Contention {
  import opened Resources
  import opened Words
  import opened Sequences
  import Pipeline
  import opened Interleaved

  // ---------------------------------------------------------------- exactly when it wedges

  /** The signal is active with nothing queued and nobody working, so nothing can clear it. */
  ghost predicate Wedged(s: State) {
    && s.signals > 0 && s.queued == 0 && s.consumer.AtGate?
    && forall i :: 0 <= i < |s.workers| ==> s.workers[i].Idle?
  }

  lemma {:induction false} WedgedForever(c: Config, s: State, steps: seq<Step>)
    requires Wedged(s) && Runs(c, s, steps)
    ensures After(c, s, steps) == s
    decreases |steps|
  {
    if steps != [] {
      assert steps[0] == Gate;
      WedgedForever(c, s, steps[1..]);
    }
  }

  /** The first `i` workers are in state `a`, the rest in state `b`. */
  function Pool(c: Config, i: nat, a: Worker, b: Worker): seq<Worker> { seq(c.workers, k => if k < i then a else b) }

  lemma {:induction false} PoolNext(c: Config, i: nat, a: Worker, b: Worker)
    requires i < c.workers
    ensures Pool(c, i, a, b)[i] == b
    ensures Pool(c, i, a, b)[i := a] == Pool(c, i + 1, a, b)
  {
  }

  lemma {:induction false} Fits(c: Config, i: nat)
    requires c.Valid() && i <= c.workers
    ensures i * c.batchSize <= c.workers * c.batchSize
    ensures i * c.batchSize * BYTES_PER_MESSAGE < WORD
  {
    assert c.workers * c.batchSize == i * c.batchSize + (c.workers - i) * c.batchSize;
  }

  /** With an idle counter the consumer delivers one event. */
  lemma {:induction false} DeliverOne(c: Config, s: State)
    requires c.Valid() && Reachable(c, s) && s.consumer.AtGate? && s.signals == 0 && s.inFlight == 0
    requires c.points.memoryTrigger > 0
    ensures Reachable(c, s.(queued := s.queued + 1))
  {
    ReachableStep(c, s, Gate);
    var s1 := Apply(c, s, Gate);
    ReachableStep(c, s1, LoadCount);
    var s2 := Apply(c, s1, LoadCount);
    ReachableStep(c, s2, LoadMemory);
    var s3 := Apply(c, s2, LoadMemory);
    ReachableStep(c, s3, Deliver);
  }

  lemma {:induction false} DeliverMany(c: Config, s: State, n: nat)
    requires c.Valid() && Reachable(c, s) && s.consumer.AtGate? && s.signals == 0 && s.inFlight == 0
    requires c.points.memoryTrigger > 0
    ensures Reachable(c, s.(queued := s.queued + n))
    decreases n
  {
    if n > 0 {
      DeliverMany(c, s, n - 1);
      DeliverOne(c, s.(queued := s.queued + (n - 1)));
    }
  }

  lemma {:induction false} Gather(c: Config, i: nat)
    requires c.Valid() && c.points.memoryTrigger > 0 && i <= c.workers
    ensures Reachable(c, State(0, 0, 0, Pool(c, i, Taken(c.batchSize), Idle), AtGate))
  {
    if i == 0 {
      ReachableInit(c);
      assert Pool(c, 0, Taken(c.batchSize), Idle) == Init(c).workers;
    } else {
      Gather(c, i - 1);
      var s := State(0, 0, 0, Pool(c, i - 1, Taken(c.batchSize), Idle), AtGate);
      DeliverMany(c, s, c.batchSize);
      PoolNext(c, i - 1, Taken(c.batchSize), Idle);
      ReachableStep(c, s.(queued := c.batchSize), Take(i - 1, c.batchSize));
    }
  }

  lemma {:induction false} StartAll(c: Config, i: nat)
    requires c.Valid() && c.points.memoryTrigger > 0 && i <= c.workers
    ensures Reachable(c, State(0, i * c.batchSize, 0, Pool(c, i, Working(c.batchSize), Taken(c.batchSize)), AtGate))
  {
    if i == 0 {
      Gather(c, c.workers);
      assert Pool(c, c.workers, Taken(c.batchSize), Idle) == Pool(c, 0, Working(c.batchSize), Taken(c.batchSize));
    } else {
      StartAll(c, i - 1);
      var s := State(0, (i - 1) * c.batchSize, 0, Pool(c, i - 1, Working(c.batchSize), Taken(c.batchSize)), AtGate);
      PoolNext(c, i - 1, Working(c.batchSize), Taken(c.batchSize));
      Fits(c, i);
      assert i * c.batchSize == (i - 1) * c.batchSize + c.batchSize;
      ReachableStep(c, s, Add(i - 1));
    }
  }

  /** The consumer has decided to signal while the whole pool works, and has not signalled yet. */
  lemma {:induction false} Trip(c: Config)
    requires c.Valid() && c.points.memoryTrigger > 0 && !Roomy(c)
    ensures Reachable(c, State(0, c.workers * c.batchSize, 0, Pool(c, 0, Idle, Working(c.batchSize)), Tripped))
  {
    StartAll(c, c.workers);
    assert Pool(c, c.workers, Working(c.batchSize), Taken(c.batchSize)) == Pool(c, 0, Idle, Working(c.batchSize));
    var s := State(0, c.workers * c.batchSize, 0, Pool(c, 0, Idle, Working(c.batchSize)), AtGate);
    ReachableStep(c, s, Gate);
    var s1 := Apply(c, s, Gate);
    ReachableStep(c, s1, LoadCount);
    var s2 := Apply(c, s1, LoadCount);
    if s2.consumer.Counted? {
      ReachableStep(c, s2, LoadMemory);
    }
  }

  /** Worker `i` completes its batch while no signal is up, so it lowers nothing. */
  lemma {:induction false} CompleteOne(c: Config, s: State, i: nat)
    requires Reachable(c, s) && i < |s.workers| && s.workers[i].Working? && s.signals == 0
    requires s.workers[i].n <= s.inFlight < WORD
    ensures Reachable(c, s.(inFlight := s.inFlight - s.workers[i].n, workers := s.workers[i := Idle]))
  {
    var left := s.inFlight - s.workers[i].n;
    ReachableStep(c, s, Subtract(i));
    var s1 := s.(inFlight := left, workers := s.workers[i := Subtracted]);
    assert Apply(c, s, Subtract(i)) == s1;
    ReachableStep(c, s1, WorkerLoadCount(i));
    var s2 := s1.(workers := s.workers[i := Loaded(left)]);
    assert Apply(c, s1, WorkerLoadCount(i)).workers == s2.workers;
    ReachableStep(c, s2, WorkerLoadMemory(i));
    var s3 := Apply(c, s2, WorkerLoadMemory(i));
    if s3.workers[i].Testing? {
      ReachableStep(c, s3, Test(i));
      assert Apply(c, s3, Test(i)).workers == s.workers[i := Idle];
    } else {
      assert s3.workers == s.workers[i := Idle];
    }
  }

  lemma {:induction false} CompleteAll(c: Config, i: nat)
    requires c.Valid() && c.points.memoryTrigger > 0 && !Roomy(c) && i <= c.workers
    ensures Reachable(c, State(0, (c.workers - i) * c.batchSize, 0, Pool(c, i, Idle, Working(c.batchSize)), Tripped))
  {
    if i == 0 {
      Trip(c);
    } else {
      CompleteAll(c, i - 1);
      var left := c.workers - (i - 1);
      var s := State(0, left * c.batchSize, 0, Pool(c, i - 1, Idle, Working(c.batchSize)), Tripped);
      PoolNext(c, i - 1, Idle, Working(c.batchSize));
      Fits(c, left);
      assert left * c.batchSize == (left - 1) * c.batchSize + c.batchSize;
      CompleteOne(c, s, i - 1);
    }
  }

  /** Any configuration whose checks can fail can wedge: everyone completes between the failing load and the signal. */
  lemma {:induction false} TightWedges(c: Config) returns (s: State)
    requires c.Valid() && !Roomy(c)
    ensures Reachable(c, s) && Wedged(s)
  {
    var s0: State;
    if c.points.memoryTrigger == 0 {
      ReachableInit(c);
      ReachableStep(c, Init(c), Gate);
      var s1 := Apply(c, Init(c), Gate);
      ReachableStep(c, s1, LoadCount);
      var s2 := Apply(c, s1, LoadCount);
      ReachableStep(c, s2, LoadMemory);
      s0 := Apply(c, s2, LoadMemory);
    } else {
      CompleteAll(c, c.workers);
      s0 := State(0, 0, 0, Pool(c, c.workers, Idle, Working(c.batchSize)), Tripped);
    }
    ReachableStep(c, s0, Raise);
    s := Apply(c, s0, Raise);
  }

  /** Between atomic operations, backpressure can wedge exactly when a resource check can fail at all. */
  lemma {:induction false} WedgesExactlyWhenTight(c: Config)
    requires c.Valid()
    ensures (exists s :: Reachable(c, s) && Wedged(s)) <==> !Roomy(c)
  {
    if Roomy(c) {
      forall s | Reachable(c, s) ensures !Wedged(s) {
        ReachableAccounted(c, s);
      }
    } else {
      var s := TightWedges(c);
    }
  }

  // ---------------------------------------------------------------- two completions, one signal

  /** Worker `w` is about to lower a signal that is no longer there. */
  predicate Underflow(c: Config, s: State, w: nat) { Enabled(c, s, Lower(w)) && s.signals == 0 }

  lemma {:induction false} UnderflowWraps(c: Config, s: State, w: nat)
    requires Underflow(c, s, w)
    ensures Apply(c, s, Lower(w)).signals == WORD - 1
  {
  }

  /** Two workers that can both see one signal, a check that can fail, and release points that can be met. */
  predicate Contended(c: Config) {
    c.workers >= 2 && !Roomy(c) && c.points.messagesRelease >= 1 && c.points.memoryRelease >= 1
  }

  /** The whole pool is at work with the signal up. */
  lemma {:induction false} RaiseAll(c: Config)
    requires c.Valid() && c.points.memoryTrigger > 0 && !Roomy(c)
    ensures Reachable(c, State(0, c.workers * c.batchSize, 1, Pool(c, 0, Idle, Working(c.batchSize)), AtGate))
  {
    Trip(c);
    ReachableStep(c, State(0, c.workers * c.batchSize, 0, Pool(c, 0, Idle, Working(c.batchSize)), Tripped), Raise);
  }

  lemma {:induction false} SubtractOne(c: Config, s: State, i: nat)
    requires Reachable(c, s) && i < |s.workers| && s.workers[i].Working? && s.workers[i].n <= s.inFlight < WORD
    ensures Reachable(c, s.(inFlight := s.inFlight - s.workers[i].n, workers := s.workers[i := Subtracted]))
  {
    ReachableStep(c, s, Subtract(i));
  }

  lemma {:induction false} SubtractAll(c: Config, i: nat)
    requires c.Valid() && c.points.memoryTrigger > 0 && !Roomy(c) && i <= c.workers
    ensures Reachable(c, State(0, (c.workers - i) * c.batchSize, 1, Pool(c, i, Subtracted, Working(c.batchSize)), AtGate))
  {
    if i == 0 {
      RaiseAll(c);
      assert Pool(c, 0, Idle, Working(c.batchSize)) == Pool(c, 0, Subtracted, Working(c.batchSize));
    } else {
      SubtractAll(c, i - 1);
      var left := c.workers - (i - 1);
      var s := State(0, left * c.batchSize, 1, Pool(c, i - 1, Subtracted, Working(c.batchSize)), AtGate);
      PoolNext(c, i - 1, Subtracted, Working(c.batchSize));
      Fits(c, left);
      assert left * c.batchSize == (left - 1) * c.batchSize + c.batchSize;
      SubtractOne(c, s, i - 1);
    }
  }

  /** With nothing in flight and the signal up, a worker that has subtracted goes on to lower it. */
  lemma {:induction false} Arm(c: Config, s: State, w: nat)
    requires c.points.messagesRelease >= 1 && c.points.memoryRelease >= 1
    requires Reachable(c, s) && w < |s.workers| && s.workers[w].Subtracted? && s.inFlight == 0 && s.signals > 0
    ensures Reachable(c, s.(workers := s.workers[w := Armed]))
  {
    ReachableStep(c, s, WorkerLoadCount(w));
    var s1 := s.(workers := s.workers[w := Loaded(0)]);
    assert Apply(c, s, WorkerLoadCount(w)) == s1;
    ReachableStep(c, s1, WorkerLoadMemory(w));
    var s2 := s.(workers := s.workers[w := Testing]);
    assert Apply(c, s1, WorkerLoadMemory(w)).workers == s2.workers;
    ReachableStep(c, s2, Test(w));
    assert Apply(c, s2, Test(w)).workers == s.workers[w := Armed];
  }

  lemma {:induction false} ContendedUnderflows(c: Config) returns (s: State)
    requires c.Valid() && Contended(c)
    ensures Reachable(c, s) && Underflow(c, s, 1)
  {
    SubtractAll(c, c.workers);
    var all := Pool(c, c.workers, Subtracted, Working(c.batchSize));
    var s0 := State(0, 0, 1, all, AtGate);
    Arm(c, s0, 0);
    var s1 := s0.(workers := all[0 := Armed]);
    Arm(c, s1, 1);
    var s2 := s0.(workers := all[0 := Armed][1 := Armed]);
    ReachableStep(c, s2, Lower(0));
    s := Apply(c, s2, Lower(0));
  }

  /**
   * With a release point of 0 nobody is on the way to lowering the signal.  With one worker the signal is up to 1, only
   * while the consumer is at its gate, and always while the worker is armed.
   */
  ghost predicate Tame(c: Config, s: State) {
    && |s.workers| == c.workers
    && (c.points.messagesRelease == 0 || c.points.memoryRelease == 0 ==>
         forall i :: 0 <= i < |s.workers| ==> !s.workers[i].Testing? && !s.workers[i].Armed?)
    && (c.workers == 1 ==>
         && s.signals <= 1
         && (!s.consumer.AtGate? ==> s.signals == 0)
         && (s.workers[0].Armed? ==> s.signals == 1))
  }

  lemma {:induction false} StepTame(c: Config, s: State, step: Step)
    requires Tame(c, s) && Enabled(c, s, step)
    ensures Tame(c, Apply(c, s, step))
  {
  }

  lemma {:induction false} RunTame(c: Config, s: State, steps: seq<Step>)
    requires Tame(c, s) && Runs(c, s, steps)
    ensures Tame(c, After(c, s, steps))
    decreases |steps|
  {
    if steps != [] {
      StepTame(c, s, steps[0]);
      RunTame(c, Apply(c, s, steps[0]), steps[1..]);
    }
  }

  lemma {:induction false} UncontendedNeverUnderflows(c: Config, s: State, w: nat)
    requires c.Valid() && !Contended(c) && Reachable(c, s)
    ensures !Underflow(c, s, w)
  {
    var steps :| Runs(c, Init(c), steps) && After(c, Init(c), steps) == s;
    if Roomy(c) {
      SumOfNothing(Init(c).workers, Load);
      RunAccounted(c, Init(c), steps);
    } else {
      RunTame(c, Init(c), steps);
    }
  }

  /** The signal counter can wrap below zero exactly in the contended configurations. */
  lemma {:induction false} UnderflowsExactlyWhenContended(c: Config)
    requires c.Valid()
    ensures (exists s, w :: Reachable(c, s) && Underflow(c, s, w)) <==> Contended(c)
  {
    if Contended(c) {
      var s := ContendedUnderflows(c);
    } else {
      forall s, w | Reachable(c, s) ensures !Underflow(c, s, w) {
        UncontendedNeverUnderflows(c, s, w);
      }
    }
  }

  /** In terms of the limits: at least two workers, room for two messages, a budget of 1/0.7 bytes, and a pool that can reach either trigger. */
  lemma {:induction false} UnderflowLimits(shape: Pipeline.Shape, limits: Limits)
    requires shape.Valid() && limits.Valid()
    ensures var c := shape.With(limits);
            (exists s, w :: Reachable(c, s) && Underflow(c, s, w)) <==>
            && c.workers >= 2
            && limits.maxMessagesInFlight >= 2
            && limits.Budget() * 0.70 >= 1.0
            && (c.workers * c.batchSize >= limits.maxMessagesInFlight
                || (c.workers * c.batchSize * BYTES_PER_MESSAGE + 1) as real > limits.Budget())
  {
    UnderflowsExactlyWhenContended(shape.With(limits));
  }
}

/**
 * `ResourceManager` at the granularity of its atomic operations: every load, `fetch_add` and `fetch_sub` is a step of
 * its own, so a worker can complete between the consumer's load and its signal, and two workers can see one signal.
 */
module Interleaved {
  import opened Resources
  import opened Words
  import opened Sequences
  import Pipeline

  type Config = Pipeline.Config

  /** A worker's place in its loop, down to the loads inside `complete_processing`. */
  datatype Worker =
    | Idle | Taken(n: nat) | Working(n: nat)
    | Subtracted | Loaded(left: nat) | Testing | Armed

  /** The consumer's place in its loop, down to the loads inside `check_resources`. */
  datatype Consumer = AtGate | PastGate | Counted | Tripped | Cleared

  /** `queued` counts the events delivered to the batch processor and not yet taken by a worker. */
  datatype State = State(queued: nat, inFlight: nat, signals: nat, workers: seq<Worker>, consumer: Consumer)

  datatype Step =
    | Gate | LoadCount | LoadMemory | Raise | Deliver | Skip
    | Take(w: nat, n: nat) | Add(w: nat) | Subtract(w: nat)
    | WorkerLoadCount(w: nat) | WorkerLoadMemory(w: nat) | Test(w: nat) | Lower(w: nat)

  function Init(c: Config): State { State(0, 0, 0, seq(c.workers, _ => Idle), AtGate) }

  predicate Enabled(c: Config, s: State, step: Step) {
    match step
    case Gate => s.consumer.AtGate?
    case LoadCount => s.consumer.PastGate?
    case LoadMemory => s.consumer.Counted?
    case Raise => s.consumer.Tripped?
    case Deliver => s.consumer.Cleared?
    case Skip => s.consumer.Cleared?
    case Take(w, n) => w < |s.workers| && s.workers[w].Idle? && 1 <= n <= c.batchSize && n <= s.queued
    case Add(w) => w < |s.workers| && s.workers[w].Taken?
    case Subtract(w) => w < |s.workers| && s.workers[w].Working?
    case WorkerLoadCount(w) => w < |s.workers| && s.workers[w].Subtracted?
    case WorkerLoadMemory(w) => w < |s.workers| && s.workers[w].Loaded?
    case Test(w) => w < |s.workers| && s.workers[w].Testing?
    case Lower(w) => w < |s.workers| && s.workers[w].Armed?
  }

  function Apply(c: Config, s: State, step: Step): State
    requires Enabled(c, s, step)
  {
    match step
    case Gate => s.(consumer := if s.signals > 0 then AtGate else PastGate)
    case LoadCount => s.(consumer := if s.inFlight >= c.points.maxInFlight then Tripped else Counted)
    case LoadMemory => s.(consumer := if Estimate(s.inFlight) >= c.points.memoryTrigger then Tripped else Cleared)
    case Raise => s.(consumer := AtGate, signals := AddWord(s.signals, 1))
    case Deliver => s.(consumer := AtGate, queued := s.queued + 1)
    case Skip => s.(consumer := AtGate)
    case Take(w, n) => s.(queued := s.queued - n, workers := s.workers[w := Taken(n)])
    case Add(w) =>
      s.(inFlight := AddWord(s.inFlight, s.workers[w].n), workers := s.workers[w := Working(s.workers[w].n)])
    case Subtract(w) =>
      s.(inFlight := SubWord(s.inFlight, s.workers[w].n), workers := s.workers[w := Subtracted])
    case WorkerLoadCount(w) => s.(workers := s.workers[w := Loaded(s.inFlight)])
    case WorkerLoadMemory(w) =>
      var low := s.workers[w].left < c.points.messagesRelease && Estimate(s.inFlight) < c.points.memoryRelease;
      s.(workers := s.workers[w := if low then Testing else Idle])
    case Test(w) => s.(workers := s.workers[w := if s.signals > 0 then Armed else Idle])
    case Lower(w) => s.(signals := SubWord(s.signals, 1), workers := s.workers[w := Idle])
  }

  predicate Runs(c: Config, s: State, steps: seq<Step>)
    decreases |steps|
  {
    steps == [] || (Enabled(c, s, steps[0]) && Runs(c, Apply(c, s, steps[0]), steps[1..]))
  }

  function After(c: Config, s: State, steps: seq<Step>): State
    requires Runs(c, s, steps)
    decreases |steps|
  {
    if steps == [] then s else After(c, Apply(c, s, steps[0]), steps[1..])
  }

  ghost predicate Reachable(c: Config, s: State) {
    exists steps :: Runs(c, Init(c), steps) && After(c, Init(c), steps) == s
  }

  lemma {:induction false} Extend(c: Config, s: State, steps: seq<Step>, step: Step)
    requires Runs(c, s, steps) && Enabled(c, After(c, s, steps), step)
    ensures Runs(c, s, steps + [step])
    ensures After(c, s, steps + [step]) == Apply(c, After(c, s, steps), step)
    decreases |steps|
  {
    if steps == [] {
      assert [] + [step] == [step];
    } else {
      Extend(c, Apply(c, s, steps[0]), steps[1..], step);
      assert (steps + [step])[1..] == steps[1..] + [step];
    }
  }

  lemma {:induction false} ReachableInit(c: Config)
    ensures Reachable(c, Init(c))
  {
    assert Runs(c, Init(c), []) && After(c, Init(c), []) == Init(c);
  }

  lemma {:induction false} ReachableStep(c: Config, s: State, step: Step)
    requires Reachable(c, s) && Enabled(c, s, step)
    ensures Reachable(c, Apply(c, s, step))
  {
    var steps :| Runs(c, Init(c), steps) && After(c, Init(c), steps) == s;
    Extend(c, Init(c), steps, step);
  }

  // ---------------------------------------------------------------- methods that nobody interrupts

  /** The loads and signal of one `check_resources`, in a row. */
  function CheckSteps(c: Config, s: State): seq<Step> {
    if s.inFlight >= c.points.maxInFlight then [LoadCount, Raise]
    else if Estimate(s.inFlight) >= c.points.memoryTrigger then [LoadCount, LoadMemory, Raise]
    else [LoadCount, LoadMemory]
  }

  /** They are `Check`: the same answer, and the same counters. */
  lemma {:induction false} CheckAlone(c: Config, s: State, memoryEstimate: nat)
    requires s.consumer.PastGate?
    ensures Runs(c, s, CheckSteps(c, s))
    ensures var (g, ok) := Check(c.points, Gauges(s.inFlight, s.signals, memoryEstimate));
            After(c, s, CheckSteps(c, s)) ==
            s.(inFlight := g.inFlight, signals := g.signals, consumer := if ok then Cleared else AtGate)
  {
    var s1 := Apply(c, s, LoadCount);
    if s1.consumer.Tripped? {
      TwoSteps(c, s, LoadCount, Raise);
    } else {
      TwoSteps(c, s, LoadCount, LoadMemory);
      if Apply(c, s1, LoadMemory).consumer.Tripped? {
        Extend(c, s, [LoadCount, LoadMemory], Raise);
        assert [LoadCount, LoadMemory] + [Raise] == [LoadCount, LoadMemory, Raise];
      }
    }
  }

  lemma {:induction false} TwoSteps(c: Config, s: State, first: Step, second: Step)
    requires Enabled(c, s, first) && Enabled(c, Apply(c, s, first), second)
    ensures Runs(c, s, [first, second]) && After(c, s, [first, second]) == Apply(c, Apply(c, s, first), second)
  {
    OneStep(c, s, first);
    Extend(c, s, [first], second);
    assert [first] + [second] == [first, second];
  }

  lemma {:induction false} OneStep(c: Config, s: State, step: Step)
    requires Enabled(c, s, step)
    ensures Runs(c, s, [step]) && After(c, s, [step]) == Apply(c, s, step)
  {
    assert [step][1..] == [];
    assert After(c, Apply(c, s, step), []) == Apply(c, s, step);
  }

  /** The operations of one `complete_processing`, in a row: worker `w` finishes with nobody in between. */
  lemma {:induction false} CompleteAlone(c: Config, s: State, w: nat, memoryEstimate: nat) returns (steps: seq<Step>)
    requires w < |s.workers| && s.workers[w].Working?
    ensures Runs(c, s, steps)
    ensures var g := Complete(c.points, Gauges(s.inFlight, s.signals, memoryEstimate), s.workers[w].n);
            After(c, s, steps) == s.(inFlight := g.inFlight, signals := g.signals, workers := s.workers[w := Idle])
  {
    var left := SubWord(s.inFlight, s.workers[w].n);
    var s1 := s.(inFlight := left, workers := s.workers[w := Subtracted]);
    var s2 := s.(inFlight := left, workers := s.workers[w := Loaded(left)]);
    TwoSteps(c, s, Subtract(w), WorkerLoadCount(w));
    assert Apply(c, s1, WorkerLoadCount(w)) == s2;
    steps := [Subtract(w), WorkerLoadCount(w)];
    Extend(c, s, steps, WorkerLoadMemory(w));
    steps := steps + [WorkerLoadMemory(w)];
    var s3 := s.(inFlight := left, workers := s.workers[w := if Released(c.points, left) then Testing else Idle]);
    assert After(c, s, steps) == s3;
    if Released(c.points, left) {
      steps := TestAlone(c, s, w, steps);
    }
  }

  lemma {:induction false} TestAlone(c: Config, s: State, w: nat, before: seq<Step>) returns (steps: seq<Step>)
    requires Runs(c, s, before) && w < |s.workers| && w < |After(c, s, before).workers|
    requires After(c, s, before).workers == s.workers[w := Testing]
    ensures Runs(c, s, steps)
    ensures var t := After(c, s, before);
            After(c, s, steps) ==
            t.(signals := if t.signals > 0 then SubWord(t.signals, 1) else t.signals, workers := s.workers[w := Idle])
  {
    var t := After(c, s, before);
    Extend(c, s, before, Test(w));
    steps := before + [Test(w)];
    if t.signals > 0 {
      var t1 := t.(workers := s.workers[w := Armed]);
      assert Apply(c, t, Test(w)) == t1;
      Extend(c, s, steps, Lower(w));
      steps := steps + [Lower(w)];
      assert Apply(c, t1, Lower(w)).workers == s.workers[w := Idle];
    } else {
      assert Apply(c, t, Test(w)).workers == s.workers[w := Idle];
    }
  }

  // ---------------------------------------------------------------- in-flight accounting between any two atomic operations

  function Load(w: Worker): nat { if w.Working? then w.n else 0 }

  ghost predicate Accounted(c: Config, s: State) {
    && |s.workers| == c.workers
    && (forall i :: 0 <= i < |s.workers| && (s.workers[i].Taken? || s.workers[i].Working?) ==> s.workers[i].n <= c.batchSize)
    && s.inFlight == Sum(s.workers, Load)
  }

  lemma {:induction false} AccountedBound(c: Config, s: State)
    requires c.Valid() && Accounted(c, s)
    ensures s.inFlight <= c.workers * c.batchSize
    ensures s.inFlight * BYTES_PER_MESSAGE < WORD
    ensures forall i :: 0 <= i < |s.workers| ==> Load(s.workers[i]) <= s.inFlight
  {
    SumBound(s.workers, Load, c.batchSize);
  }

  lemma {:induction false} AccountedAfter(c: Config, s: State, t: State, w: nat, held: Worker)
    requires Accounted(c, s) && w < |s.workers| && t.workers == s.workers[w := held]
    requires held.Taken? || held.Working? ==> held.n <= c.batchSize
    requires t.inFlight == s.inFlight - Load(s.workers[w]) + Load(held)
    ensures Accounted(c, t)
  {
    SumUpdate(s.workers, w, held, Load);
  }

  lemma {:induction false} AddFits(c: Config, s: State, w: nat)
    requires c.Valid() && Accounted(c, s) && Enabled(c, s, Add(w))
    ensures Apply(c, s, Add(w)).inFlight == s.inFlight + s.workers[w].n
  {
    var ws := s.workers[w := Working(s.workers[w].n)];
    SumUpdate(s.workers, w, ws[w], Load);
    SumBound(ws, Load, c.batchSize);
  }

  lemma {:induction false} AddAccounted(c: Config, s: State, w: nat)
    requires c.Valid() && Accounted(c, s) && Enabled(c, s, Add(w))
    ensures Accounted(c, Apply(c, s, Add(w)))
  {
    AddFits(c, s, w);
    AccountedAfter(c, s, Apply(c, s, Add(w)), w, Working(s.workers[w].n));
  }

  lemma {:induction false} SubtractAccounted(c: Config, s: State, w: nat)
    requires c.Valid() && Accounted(c, s) && Enabled(c, s, Subtract(w))
    ensures Accounted(c, Apply(c, s, Subtract(w)))
  {
    AccountedBound(c, s);
    assert Load(s.workers[w]) <= s.inFlight;
    AccountedAfter(c, s, Apply(c, s, Subtract(w)), w, Subtracted);
  }

  /** Steps that leave the counter alone. */
  lemma {:induction false} OtherAccounted(c: Config, s: State, step: Step)
    requires Accounted(c, s) && Enabled(c, s, step) && !step.Add? && !step.Subtract?
    ensures Accounted(c, Apply(c, s, step))
  {
    var t := Apply(c, s, step);
    assert t.inFlight == s.inFlight;
    match step
    case Take(w, n) => AccountedAfter(c, s, t, w, Taken(n));
    case WorkerLoadCount(w) => AccountedAfter(c, s, t, w, Loaded(s.inFlight));
    case WorkerLoadMemory(w) => AccountedAfter(c, s, t, w, t.workers[w]);
    case Test(w) => AccountedAfter(c, s, t, w, t.workers[w]);
    case Lower(w) => AccountedAfter(c, s, t, w, Idle);
    case _ =>
  }

  lemma {:induction false} StepAccounted(c: Config, s: State, step: Step)
    requires c.Valid() && Accounted(c, s) && Enabled(c, s, step)
    ensures Accounted(c, Apply(c, s, step))
  {
    match step
    case Add(w) => AddAccounted(c, s, w);
    case Subtract(w) => SubtractAccounted(c, s, w);
    case _ => OtherAccounted(c, s, step);
  }

  /** Every check passes, no signal is ever raised, and no worker ever tries to lower one. */
  ghost predicate Quiet(s: State) {
    s.signals == 0 && !s.consumer.Tripped? && forall i :: 0 <= i < |s.workers| ==> !s.workers[i].Armed?
  }

  /** The whole pool at full batches stays below both triggers. */
  predicate Roomy(c: Config) {
    c.workers * c.batchSize < c.points.maxInFlight && c.workers * c.batchSize * BYTES_PER_MESSAGE < c.points.memoryTrigger
  }

  lemma {:induction false} StepQuiet(c: Config, s: State, step: Step)
    requires c.Valid() && Roomy(c) && Accounted(c, s) && Quiet(s) && Enabled(c, s, step)
    ensures Quiet(Apply(c, s, step))
  {
    AccountedBound(c, s);
  }

  lemma {:induction false} RunAccounted(c: Config, s: State, steps: seq<Step>)
    requires c.Valid() && Accounted(c, s) && Runs(c, s, steps)
    ensures Accounted(c, After(c, s, steps))
    ensures Roomy(c) && Quiet(s) ==> Quiet(After(c, s, steps))
    decreases |steps|
  {
    if steps != [] {
      StepAccounted(c, s, steps[0]);
      if Roomy(c) && Quiet(s) {
        StepQuiet(c, s, steps[0]);
      }
      RunAccounted(c, Apply(c, s, steps[0]), steps[1..]);
    }
  }

  /** The counter is exact between any two atomic operations, and in a roomy configuration no check ever fails. */
  lemma {:induction false} ReachableAccounted(c: Config, s: State)
    requires c.Valid() && Reachable(c, s)
    ensures s.inFlight == Sum(s.workers, Load) <= c.workers * c.batchSize
    ensures Roomy(c) ==> s.signals == 0 && !s.consumer.Tripped?
  {
    var steps :| Runs(c, Init(c), steps) && After(c, Init(c), steps) == s;
    SumOfNothing(Init(c).workers, Load);
    RunAccounted(c, Init(c), steps);
    AccountedBound(c, s);
  }
}

/**
 * The batch pipeline as a transition system: one consumer, one collector task, a pool of workers, a bounded event
 * channel, a bounded batch channel and the shared `ResourceManager`.  Every step is one indivisible action of one task;
 * each `ResourceManager` method is one action.
 */
module Pipeline {
  import opened Events
  import opened Resources
  import opened Words

  datatype Config = Config(batchSize: nat, workers: nat, queueSize: nat, timerEnabled: bool, points: Thresholds) {
    /** What configuration validation guarantees, and that the workers' load fits the byte estimate. */
    predicate Valid() {
      && batchSize >= 1 && workers >= 1 && queueSize >= 1
      && points.Ordered()
      && workers * batchSize * BYTES_PER_MESSAGE < WORD
    }

    /** The larger of twice the workers and 10. */
    function BatchQueueCapacity(): (n: nat)
      ensures n >= 2 * workers && n >= 10 && (n == 2 * workers || n == 10)
    {
      if workers * 2 >= 10 then workers * 2 else 10
    }
  }

  /** The shape of a pipeline, apart from the points its resource manager derives from the limits. */
  datatype Shape = Shape(batchSize: nat, workers: nat, queueSize: nat, timerEnabled: bool) {
    predicate Valid() {
      batchSize >= 1 && workers >= 1 && queueSize >= 1 && workers * batchSize * BYTES_PER_MESSAGE < WORD
    }

    function With(limits: Limits): (c: Config)
      requires Valid() && limits.Valid()
      ensures c.Valid() && c.points == limits.Points()
    {
      Config(batchSize, workers, queueSize, timerEnabled, limits.Points())
    }
  }

  /** Where the collector task is in its loop. */
  datatype Collector =
    | Collecting(current: seq<SolanaEvent>)
    | Sending(batch: seq<SolanaEvent>, last: bool)
    | Stopped
  {
    function InHand(): seq<SolanaEvent> {
      match this
      case Collecting(current) => current
      case Sending(batch, _) => batch
      case Stopped => []
    }
  }

  /** Where a worker task is in its loop; `id` is the position of its batch among all dispatched batches. */
  datatype Worker =
    | Idle
    | Received(id: nat, batch: seq<SolanaEvent>)
    | Working(id: nat, batch: seq<SolanaEvent>, next: nat)
    | Exited
  {
    predicate Holds(k: nat) { (Received? || Working?) && id == k }
  }

  /** Where the consumer is in its loop: before the gate, past it, cleared to receive, or delivering an event. */
  datatype Consumer = AtGate | PastGate | Cleared | Delivering(event: SolanaEvent)

  datatype State = State(
    closed: bool,
    dropped: bool,
    events: seq<SolanaEvent>,
    collector: Collector,
    batches: seq<seq<SolanaEvent>>,
    workers: seq<Worker>,
    gauges: Gauges,
    consumer: Consumer,
    // history
    accepted: seq<SolanaEvent>,
    refused: seq<SolanaEvent>,
    dispatched: seq<seq<SolanaEvent>>,
    taken: nat,
    finished: set<nat>,
    offered: seq<SolanaEvent>)

  datatype Step =
    | Gate | CheckResources | Receive(event: SolanaEvent) | Skip | AddEvent | AddEventFails
    | CollectorReceive | CollectorTimeout | CollectorDisconnected | CollectorSend | CollectorSendFails
    | Take(w: nat) | StartBatch(w: nat) | Offer(w: nat) | FinishBatch(w: nat) | Exit(w: nat)
    | Close | Drop

  function Init(c: Config): State {
    State(false, false, [], Collecting([]), [], seq(c.workers, _ => Idle), Gauges(0, 0, 0), AtGate, [], [], [], 0, {}, [])
  }

  predicate AllExited(s: State) { forall i :: 0 <= i < |s.workers| ==> s.workers[i].Exited? }

  predicate Enabled(c: Config, s: State, step: Step) {
    match step
    case Gate => s.consumer.AtGate?
    case CheckResources => s.consumer.PastGate?
    case Receive(_) => s.consumer.Cleared?
    case Skip => s.consumer.Cleared?
    case AddEvent => s.consumer.Delivering? && !s.closed && |s.events| < c.queueSize
    case AddEventFails => s.consumer.Delivering? && s.closed
    case CollectorReceive => s.collector.Collecting? && |s.events| > 0
    case CollectorTimeout => s.collector.Collecting? && s.collector.current != [] && c.timerEnabled
    case CollectorDisconnected => s.collector.Collecting? && s.events == [] && s.closed
    case CollectorSend => s.collector.Sending? && !AllExited(s) && |s.batches| < c.BatchQueueCapacity()
    case CollectorSendFails => s.collector.Sending? && AllExited(s)
    case Take(w) => w < |s.workers| && s.workers[w].Idle? && |s.batches| > 0
    case StartBatch(w) => w < |s.workers| && s.workers[w].Received?
    case Offer(w) => w < |s.workers| && s.workers[w].Working? && s.workers[w].next < |s.workers[w].batch|
    case FinishBatch(w) => w < |s.workers| && s.workers[w].Working? && s.workers[w].next >= |s.workers[w].batch|
    case Exit(w) => w < |s.workers| && s.workers[w].Idle? && s.batches == [] && s.dropped && s.collector.Stopped?
    case Close => true
    case Drop => !s.consumer.Delivering?
  }

  /** What the collector does with a received event: keep collecting, or cut the batch when it is full. */
  function Collect(c: Config, current: seq<SolanaEvent>, event: SolanaEvent): Collector {
    var grown := current + [event];
    if |grown| >= c.batchSize then Sending(grown, false) else Collecting(grown)
  }

  function Apply(c: Config, s: State, step: Step): State
    requires Enabled(c, s, step)
  {
    match step
    case Gate => s.(consumer := if s.gauges.signals > 0 then AtGate else PastGate)
    case CheckResources =>
      var (gauges, ok) := Check(c.points, s.gauges);
      s.(gauges := gauges, consumer := if ok then Cleared else AtGate)
    case Receive(event) => s.(consumer := Delivering(event))
    case Skip => s.(consumer := AtGate)
    case AddEvent =>
      s.(events := s.events + [s.consumer.event], accepted := s.accepted + [s.consumer.event], consumer := AtGate)
    case AddEventFails => s.(refused := s.refused + [s.consumer.event], consumer := AtGate)
    case CollectorReceive =>
      s.(events := s.events[1..], collector := Collect(c, s.collector.current, s.events[0]))
    case CollectorTimeout => s.(collector := Sending(s.collector.current, false))
    case CollectorDisconnected =>
      s.(collector := if s.collector.current == [] then Stopped else Sending(s.collector.current, true))
    case CollectorSend =>
      s.(batches := s.batches + [s.collector.batch],
         dispatched := s.dispatched + [s.collector.batch],
         collector := if s.collector.last then Stopped else Collecting([]))
    case CollectorSendFails => s.(collector := Stopped)
    case Take(w) =>
      s.(batches := s.batches[1..], workers := s.workers[w := Received(s.taken, s.batches[0])], taken := s.taken + 1)
    case StartBatch(w) =>
      var held := s.workers[w];
      s.(gauges := Start(s.gauges, |held.batch|), workers := s.workers[w := Working(held.id, held.batch, 0)])
    case Offer(w) =>
      var held := s.workers[w];
      s.(offered := s.offered + [held.batch[held.next]], workers := s.workers[w := held.(next := held.next + 1)])
    case FinishBatch(w) =>
      var held := s.workers[w];
      s.(gauges := Complete(c.points, s.gauges, |held.batch|),
         finished := s.finished + {held.id},
         workers := s.workers[w := Idle])
    case Exit(w) => s.(workers := s.workers[w := Exited])
    case Close => s.(closed := true)
    case Drop => s.(closed := true, dropped := true)
  }

  /** `steps` can be taken one after the other from `s`. */
  predicate Runs(c: Config, s: State, steps: seq<Step>)
    decreases |steps|
  {
    steps == [] || (Enabled(c, s, steps[0]) && Runs(c, Apply(c, s, steps[0]), steps[1..]))
  }

  function After(c: Config, s: State, steps: seq<Step>): State
    requires Runs(c, s, steps)
    decreases |steps|
  {
    if steps == [] then s else After(c, Apply(c, s, steps[0]), steps[1..])
  }

  ghost predicate Reachable(c: Config, s: State) {
    exists steps :: Runs(c, Init(c), steps) && After(c, Init(c), steps) == s
  }

  lemma {:induction false} RunsConcat(c: Config, s: State, first: seq<Step>, second: seq<Step>)
    requires Runs(c, s, first) && Runs(c, After(c, s, first), second)
    ensures Runs(c, s, first + second)
    ensures After(c, s, first + second) == After(c, After(c, s, first), second)
    decreases |first|
  {
    if first == [] {
      assert first + second == second;
    } else {
      RunsConcat(c, Apply(c, s, first[0]), first[1..], second);
      assert (first + second)[1..] == first[1..] + second;
    }
  }

  lemma {:induction false} OneStep(c: Config, s: State, step: Step)
    requires Enabled(c, s, step)
    ensures Runs(c, s, [step]) && After(c, s, [step]) == Apply(c, s, step)
  {
    var t := Apply(c, s, step);
    assert [step][1..] == [];
    assert Runs(c, t, []) && After(c, t, []) == t;
    assert After(c, s, [step]) == After(c, t, [step][1..]);
  }

  lemma {:induction false} ReachableStep(c: Config, s: State, step: Step)
    requires Reachable(c, s) && Enabled(c, s, step)
    ensures Reachable(c, Apply(c, s, step))
  {
    var steps :| Runs(c, Init(c), steps) && After(c, Init(c), steps) == s;
    OneStep(c, s, step);
    RunsConcat(c, Init(c), steps, [step]);
  }
}

/** The consumer feeding the batch pipeline: from Kafka messages to the events the processor is offered. */
module EndToEnd {
  import opened Events
  import opened Messages
  import C = Consumer
  import CP = ConsumerPipeline
  import P = Pipeline
  import PT = PipelineTheorems
  import Drain

  /** `polls` is history: the messages received and filters set so far. */
  datatype State = State(pipe: P.State, consumer: C.State, polls: seq<C.Poll>)

  /** The consumer receives a message, a filter is set, or the pipeline takes a step that is not a receive. */
  datatype Step = Fetch(message: Message) | SetFilter(filter: C.Filter) | Pipe(step: P.Step)

  function Init(c: P.Config): State { State(P.Init(c), C.FRESH, []) }

  predicate Enabled(c: P.Config, s: State, step: Step) {
    match step
    case Fetch(_) => s.pipe.consumer.Cleared?
    case SetFilter(_) => true
    case Pipe(p) => !p.Receive? && !p.Skip? && P.Enabled(c, s.pipe, p)
  }

  /** Receiving a message either yields the event to deliver or sends the loop back to its gate. */
  function Fetched(capacity: nat, s: State, m: Message): (C.State, P.Step) {
    var (t, events) := CP.One(capacity, s.consumer, C.Received(m, true));
    (t, if |events| > 0 then P.Receive(events[0]) else P.Skip)
  }

  function Apply(c: P.Config, capacity: nat, s: State, step: Step): State
    requires Enabled(c, s, step)
  {
    match step
    case Fetch(m) =>
      var (consumer, pipeStep) := Fetched(capacity, s, m);
      State(P.Apply(c, s.pipe, pipeStep), consumer, s.polls + [C.Received(m, true)])
    case SetFilter(f) =>
      State(s.pipe, CP.One(capacity, s.consumer, C.FilterSet(f)).0, s.polls + [C.FilterSet(f)])
    case Pipe(p) => s.(pipe := P.Apply(c, s.pipe, p))
  }

  predicate Runs(c: P.Config, capacity: nat, s: State, steps: seq<Step>)
    decreases |steps|
  {
    steps == [] || (Enabled(c, s, steps[0]) && Runs(c, capacity, Apply(c, capacity, s, steps[0]), steps[1..]))
  }

  function After(c: P.Config, capacity: nat, s: State, steps: seq<Step>): State
    requires Runs(c, capacity, s, steps)
    decreases |steps|
  {
    if steps == [] then s else After(c, capacity, Apply(c, capacity, s, steps[0]), steps[1..])
  }

  ghost predicate Reachable(c: P.Config, capacity: nat, s: State) {
    exists steps :: Runs(c, capacity, Init(c), steps) && After(c, capacity, Init(c), steps) == s
  }

  /** The event on its way from the consumer to `add_event`. */
  function InTransit(pipe: P.State): seq<SolanaEvent> {
    if pipe.consumer.Delivering? then [pipe.consumer.event] else []
  }

  ghost predicate Inv(c: P.Config, capacity: nat, s: State) {
    && P.Reachable(c, s.pipe)
    && s.consumer == CP.Fold(capacity, C.FRESH, s.polls).0
    && (s.pipe.refused == [] ==>
         s.pipe.accepted + InTransit(s.pipe) == CP.Fold(capacity, C.FRESH, s.polls).1)
  }

  lemma {:induction false} FoldSnoc(capacity: nat, s: C.State, polls: seq<C.Poll>, poll: C.Poll)
    ensures var (t, done) := CP.Fold(capacity, s, polls);
            var (u, now) := CP.One(capacity, t, poll);
            CP.Fold(capacity, s, polls + [poll]) == (u, done + now)
  {
    CP.FoldConcat(capacity, s, polls, [poll]);
    CP.FoldSingle(capacity, CP.Fold(capacity, s, polls).0, poll);
  }

  lemma {:induction false} FetchInv(c: P.Config, capacity: nat, s: State, m: Message)
    requires Inv(c, capacity, s) && Enabled(c, s, Fetch(m))
    ensures Inv(c, capacity, Apply(c, capacity, s, Fetch(m)))
  {
    FoldSnoc(capacity, C.FRESH, s.polls, C.Received(m, true));
    P.ReachableStep(c, s.pipe, Fetched(capacity, s, m).1);
    var events := CP.One(capacity, s.consumer, C.Received(m, true)).1;
    if |events| > 0 {
      assert events == [events[0]];
    }
    assert s.pipe.accepted + [] == s.pipe.accepted;
    assert CP.Fold(capacity, C.FRESH, s.polls).1 + [] == CP.Fold(capacity, C.FRESH, s.polls).1;
  }

  lemma {:induction false} FilterInv(c: P.Config, capacity: nat, s: State, f: C.Filter)
    requires Inv(c, capacity, s)
    ensures Inv(c, capacity, Apply(c, capacity, s, SetFilter(f)))
  {
    FoldSnoc(capacity, C.FRESH, s.polls, C.FilterSet(f));
    assert CP.Fold(capacity, C.FRESH, s.polls).1 + [] == CP.Fold(capacity, C.FRESH, s.polls).1;
  }

  lemma {:induction false} PipeInv(c: P.Config, capacity: nat, s: State, p: P.Step)
    requires Inv(c, capacity, s) && Enabled(c, s, Pipe(p))
    ensures Inv(c, capacity, Apply(c, capacity, s, Pipe(p)))
  {
    P.ReachableStep(c, s.pipe, p);
    TransitKept(c, s.pipe, p);
  }

  /** Nothing but a refusal takes an event from those accepted and in transit. */
  lemma {:induction false} TransitKept(c: P.Config, pipe: P.State, p: P.Step)
    requires P.Enabled(c, pipe, p) && !p.Receive? && !p.Skip?
    ensures var t := P.Apply(c, pipe, p);
            if p.AddEventFails? then t.refused != []
            else t.refused == pipe.refused && t.accepted + InTransit(t) == pipe.accepted + InTransit(pipe)
  {
  }

  lemma {:induction false} RunInv(c: P.Config, capacity: nat, s: State, steps: seq<Step>)
    requires Inv(c, capacity, s) && Runs(c, capacity, s, steps)
    ensures Inv(c, capacity, After(c, capacity, s, steps))
    decreases |steps|
  {
    if steps != [] {
      match steps[0] {
        case Fetch(m) => FetchInv(c, capacity, s, m);
        case SetFilter(f) => FilterInv(c, capacity, s, f);
        case Pipe(p) => PipeInv(c, capacity, s, p);
      }
      RunInv(c, capacity, Apply(c, capacity, s, steps[0]), steps[1..]);
    }
  }

  lemma {:induction false} ReachableInv(c: P.Config, capacity: nat, s: State)
    requires Reachable(c, capacity, s)
    ensures Inv(c, capacity, s)
  {
    var steps :| Runs(c, capacity, Init(c), steps) && After(c, capacity, Init(c), steps) == s;
    assert P.Runs(c, P.Init(c), []) && P.After(c, P.Init(c), []) == P.Init(c);
    RunInv(c, capacity, Init(c), steps);
  }

  /** What Kafka's messages amount to: parsed, deduplicated by epoch, filtered. */
  function Expected(capacity: nat, polls: seq<C.Poll>): seq<SolanaEvent> { CP.Pipeline(capacity, C.FRESH, polls) }

  /** At every instant, with no `add_event` refused, accepted events and the one in transit are what the messages amount to. */
  lemma {:induction false} AcceptedIsExpected(c: P.Config, capacity: nat, s: State)
    requires Reachable(c, capacity, s) && s.pipe.refused == []
    ensures s.pipe.accepted + InTransit(s.pipe) == Expected(capacity, s.polls)
  {
    ReachableInv(c, capacity, s);
    CP.FoldIsPipeline(capacity, C.FRESH, s.polls);
  }

  /** After shutdown and draining, the processor has been offered exactly the expected events, each once. */
  lemma {:induction false} OfferedIsExpected(c: P.Config, capacity: nat, s: State)
    requires c.Valid() && Reachable(c, capacity, s) && s.pipe.refused == []
    requires s.pipe.closed && Drain.Quiescent(c, s.pipe) && !s.pipe.consumer.Delivering?
    ensures multiset(s.pipe.offered) == multiset(Expected(capacity, s.polls))
    ensures c.workers == 1 ==> s.pipe.offered == Expected(capacity, s.polls)
  {
    AcceptedIsExpected(c, capacity, s);
    ReachableInv(c, capacity, s);
    Drain.QuiescentIsDrained(c, s.pipe);
    assert s.pipe.accepted + [] == s.pipe.accepted;
  }

  /** At every instant a single worker has offered a beginning of the expected events, in the order received. */
  lemma {:induction false} OfferedInReceiveOrder(c: P.Config, capacity: nat, s: State)
    requires c.Valid() && Reachable(c, capacity, s) && s.pipe.refused == [] && c.workers == 1
    ensures s.pipe.offered <= Expected(capacity, s.polls)
  {
    AcceptedIsExpected(c, capacity, s);
    ReachableInv(c, capacity, s);
    PT.SingleWorkerOrder(c, s.pipe);
  }
}

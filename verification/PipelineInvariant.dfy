/** What every reachable state of the pipeline keeps, one group of facts at a time. */
module PipelineInvariant {
  import opened Events
  import opened Sequences
  import opened Resources
  import opened Words
  import opened Pipeline

  // ---------------------------------------------------------------- sums over the worker pool

  /** Events a worker holds between `start_processing` and `complete_processing`. */
  function Busy(w: Worker): nat { if w.Working? then |w.batch| else 0 }

  /** Events a worker holds at all. */
  function Carried(w: Worker): nat { if w.Received? || w.Working? then |w.batch| else 0 }

  /** Events a worker holds but has not yet offered to the processor, in order. */
  function Unoffered(w: Worker): seq<SolanaEvent> {
    match w
    case Received(_, batch) => batch
    case Working(_, batch, next) => if next <= |batch| then batch[next..] else []
    case _ => []
  }

  function UnofferedSum(ws: seq<Worker>): multiset<SolanaEvent> {
    if |ws| == 0 then multiset{} else UnofferedSum(ws[..|ws| - 1]) + multiset(Unoffered(ws[|ws| - 1]))
  }

  lemma {:induction false} SwapSummand<T>(sum: multiset<T>, before: multiset<T>, after: multiset<T>)
    ensures (sum + after) + before == (sum + before) + after
  {
  }

  lemma {:induction false} CarrySummand<T>(sum: multiset<T>, sum': multiset<T>, before: multiset<T>, after: multiset<T>, rest: multiset<T>)
    requires sum' + before == sum + after
    ensures (sum' + rest) + before == (sum + rest) + after
  {
    assert (sum' + rest) + before == (sum' + before) + rest;
    assert (sum + rest) + after == (sum + after) + rest;
  }

  lemma {:induction false} UnofferedSumUpdate(ws: seq<Worker>, i: nat, w: Worker)
    requires i < |ws|
    ensures UnofferedSum(ws[i := w]) + multiset(Unoffered(ws[i])) == UnofferedSum(ws) + multiset(Unoffered(w))
  {
    if i == |ws| - 1 {
      UpdateLast(ws, w);
    } else {
      UnofferedSumUpdate(ws[..|ws| - 1], i, w);
      UpdateEarlier(ws, i, w);
    }
  }

  lemma {:induction false} UpdateLast(ws: seq<Worker>, w: Worker)
    requires |ws| > 0
    ensures var last := |ws| - 1;
            UnofferedSum(ws[last := w]) + multiset(Unoffered(ws[last])) == UnofferedSum(ws) + multiset(Unoffered(w))
  {
    var last := |ws| - 1;
    UnofferedSumLast(ws);
    UnofferedSumLast(ws[last := w]);
    assert ws[last := w][..last] == ws[..last];
    SwapSummand(UnofferedSum(ws[..last]), multiset(Unoffered(ws[last])), multiset(Unoffered(w)));
  }

  lemma {:induction false} UpdateEarlier(ws: seq<Worker>, i: nat, w: Worker)
    requires i < |ws| - 1
    requires var front := ws[..|ws| - 1];
             UnofferedSum(front[i := w]) + multiset(Unoffered(ws[i])) == UnofferedSum(front) + multiset(Unoffered(w))
    ensures UnofferedSum(ws[i := w]) + multiset(Unoffered(ws[i])) == UnofferedSum(ws) + multiset(Unoffered(w))
  {
    var last := |ws| - 1;
    UnofferedSumLast(ws);
    UpdatedFront(ws, i, w);
    CarrySummand(UnofferedSum(ws[..last]), UnofferedSum(ws[..last][i := w]),
                 multiset(Unoffered(ws[i])), multiset(Unoffered(w)), multiset(Unoffered(ws[last])));
  }

  lemma {:induction false} UpdatedFront(ws: seq<Worker>, i: nat, w: Worker)
    requires i < |ws| - 1
    ensures UnofferedSum(ws[i := w]) == UnofferedSum(ws[..|ws| - 1][i := w]) + multiset(Unoffered(ws[|ws| - 1]))
  {
    UpdateFront(ws, i, w);
    SumFrom(ws[i := w], ws[..|ws| - 1][i := w], ws[|ws| - 1]);
  }

  lemma {:induction false} SumFrom(ws: seq<Worker>, front: seq<Worker>, last: Worker)
    requires |ws| > 0 && ws[..|ws| - 1] == front && ws[|ws| - 1] == last
    ensures UnofferedSum(ws) == UnofferedSum(front) + multiset(Unoffered(last))
  {
  }

  lemma {:induction false} UnofferedSumLast(ws: seq<Worker>)
    requires |ws| > 0
    ensures UnofferedSum(ws) == UnofferedSum(ws[..|ws| - 1]) + multiset(Unoffered(ws[|ws| - 1]))
  {
  }

  lemma {:induction false} RestingPool(ws: seq<Worker>)
    requires forall i :: 0 <= i < |ws| ==> ws[i].Idle? || ws[i].Exited?
    ensures Sum(ws, Busy) == 0 && Sum(ws, Carried) == 0 && UnofferedSum(ws) == multiset{}
  {
    SumOfNothing(ws, Busy);
    SumOfNothing(ws, Carried);
    if |ws| > 0 {
      RestingPool(ws[..|ws| - 1]);
    }
  }

  // ---------------------------------------------------------------- the invariant

  /** Nothing is lost, invented or reordered on the way from `add_event` to the batch channel. */
  ghost predicate Conserved(s: State) {
    && s.accepted == Flat(s.dispatched) + s.collector.InHand() + s.events
    && s.taken + |s.batches| == |s.dispatched|
    && s.batches == s.dispatched[s.taken..]
  }

  /** Every batch is non-empty and within the limit, and both channels are within their capacities. */
  ghost predicate Sized(c: Config, s: State) {
    && |s.workers| == c.workers
    && (forall k :: 0 <= k < |s.dispatched| ==> 1 <= |s.dispatched[k]| <= c.batchSize)
    && (s.collector.Collecting? ==> |s.collector.current| < c.batchSize)
    && (s.collector.Sending? ==> 1 <= |s.collector.batch| <= c.batchSize)
    && |s.events| <= c.queueSize
    && |s.batches| <= c.BatchQueueCapacity()
  }

  /** Each batch that left the channel is held by exactly one worker or finished, and not both. */
  ghost predicate Placed(s: State) {
    && (forall i, k: nat {:trigger s.workers[i].Holds(k)} :: 0 <= i < |s.workers| && s.workers[i].Holds(k) ==>
         k < s.taken && k !in s.finished && k < |s.dispatched| && s.workers[i].batch == s.dispatched[k])
    && (forall i :: 0 <= i < |s.workers| && s.workers[i].Working? ==> s.workers[i].next <= |s.workers[i].batch|)
    && (forall i, j, k: nat :: 0 <= i < |s.workers| && 0 <= j < |s.workers| && s.workers[i].Holds(k) && s.workers[j].Holds(k) ==> i == j)
    && (forall k :: k in s.finished ==> k < s.taken)
    && (forall k: nat :: k < s.taken && k !in s.finished ==> exists i :: 0 <= i < |s.workers| && s.workers[i].Holds(k))
  }

  /** The end of the pipeline's life comes in order: closed, collector stopped, workers exited. */
  ghost predicate Staged(s: State) {
    && (s.dropped ==> s.closed)
    && (s.collector.Stopped? ==> s.closed && s.events == [])
    && (s.collector.Sending? && s.collector.last ==> s.closed && s.events == [])
    && (forall i :: 0 <= i < |s.workers| && s.workers[i].Exited? ==> s.collector.Stopped? && s.batches == [])
  }

  /** The in-flight counter is the size of what workers are processing. */
  ghost predicate Counted(s: State) {
    s.gauges.inFlight == Sum(s.workers, Busy)
  }

  /** At most one signal; an active signal means the release condition is still false; a consumer past the gate means none. */
  ghost predicate Signalled(c: Config, s: State) {
    && s.gauges.signals <= 1
    && (s.gauges.signals == 1 ==> !Released(c.points, s.gauges.inFlight))
    && (!s.consumer.AtGate? ==> s.gauges.signals == 0)
  }

  /** Every event of every batch that left the channel has been offered or is still held. */
  ghost predicate Offered(s: State) {
    && s.taken <= |s.dispatched|
    && multiset(Flat(s.dispatched[..s.taken])) == multiset(s.offered) + UnofferedSum(s.workers)
  }

  /** A single worker offers events in the order they were accepted. */
  ghost predicate InOrder(s: State) {
    && s.taken <= |s.dispatched|
    && (|s.workers| == 1 ==> Flat(s.dispatched[..s.taken]) == s.offered + Unoffered(s.workers[0]))
  }

  /** Events of the finished batches among the first `n` dispatched. */
  function FinishedEvents(dispatched: seq<seq<SolanaEvent>>, finished: set<nat>, n: nat): nat
    requires n <= |dispatched|
  {
    if n == 0 then 0
    else FinishedEvents(dispatched, finished, n - 1) + if n - 1 in finished then |dispatched[n - 1]| else 0
  }

  /** Every event that left the batch channel is carried by a worker or belongs to a finished batch. */
  ghost predicate Balanced(s: State) {
    && s.taken <= |s.dispatched|
    && |Flat(s.dispatched[..s.taken])| == FinishedEvents(s.dispatched, s.finished, s.taken) + Sum(s.workers, Carried)
  }

  ghost predicate Inv(c: Config, s: State) {
    && Conserved(s) && Sized(c, s) && Placed(s) && Staged(s) && Counted(s) && Signalled(c, s) && Offered(s) && InOrder(s) && Balanced(s)
  }

  // ---------------------------------------------------------------- it holds initially

  lemma {:induction false} InitInv(c: Config)
    requires c.Valid()
    ensures Inv(c, Init(c))
  {
    var s := Init(c);
    RestingPool(s.workers);
    assert Placed(s) by {
      forall i, k: nat | 0 <= i < |s.workers| ensures !s.workers[i].Holds(k) {
      }
    }
  }

  // ---------------------------------------------------------------- every step keeps it

  predicate ByWorker(step: Step) { step.Take? || step.StartBatch? || step.Offer? || step.FinishBatch? || step.Exit? }

  predicate ByCollector(step: Step) {
    step.CollectorReceive? || step.CollectorTimeout? || step.CollectorDisconnected? || step.CollectorSend?
  }

  lemma {:induction false} StepConserved(c: Config, s: State, step: Step)
    requires Conserved(s) && Enabled(c, s, step) && !step.CollectorSendFails?
    ensures Conserved(Apply(c, s, step))
  {
    if ByCollector(step) {
      CollectorConserved(c, s, step);
    } else if ByWorker(step) {
      WorkerConserved(c, s, step);
    }
  }

  lemma {:induction false} CollectorConserved(c: Config, s: State, step: Step)
    requires Conserved(s) && Enabled(c, s, step) && ByCollector(step)
    ensures Conserved(Apply(c, s, step))
  {
    match step
    case CollectorReceive => ReceiveConserved(c, s);
    case CollectorSend => SendConserved(c, s);
    case _ =>
  }

  lemma {:induction false} ReceiveConserved(c: Config, s: State)
    requires Conserved(s) && Enabled(c, s, CollectorReceive)
    ensures Conserved(Apply(c, s, CollectorReceive))
  {
    assert s.events == [s.events[0]] + s.events[1..];
  }

  lemma {:induction false} SendConserved(c: Config, s: State)
    requires Conserved(s) && Enabled(c, s, CollectorSend)
    ensures Conserved(Apply(c, s, CollectorSend))
  {
    FlatSnoc(s.dispatched, s.collector.batch);
    SuffixSnoc(s.dispatched, s.taken, s.collector.batch);
  }

  lemma {:induction false} SuffixSnoc<T>(ts: seq<T>, k: nat, t: T)
    requires k <= |ts|
    ensures (ts + [t])[k..] == ts[k..] + [t]
  {
  }

  lemma {:induction false} WorkerConserved(c: Config, s: State, step: Step)
    requires Conserved(s) && Enabled(c, s, step) && ByWorker(step)
    ensures Conserved(Apply(c, s, step))
  {
    if step.Take? {
      assert s.batches[1..] == s.dispatched[s.taken + 1..];
    }
  }

  /** While the collector has something to send, no worker has left: the send-failure branches are dead. */
  lemma {:induction false} SendNeverFails(c: Config, s: State)
    requires c.Valid() && Staged(s) && |s.workers| == c.workers
    ensures !Enabled(c, s, CollectorSendFails)
  {
    if s.collector.Sending? {
      assert !s.workers[0].Exited?;
    }
  }

  lemma {:induction false} StepSized(c: Config, s: State, step: Step)
    requires c.Valid() && Sized(c, s) && Enabled(c, s, step)
    ensures Sized(c, Apply(c, s, step))
  {
    if ByCollector(step) {
      CollectorSized(c, s, step);
    } else {
      OtherSized(c, s, step);
    }
  }

  lemma {:induction false} CollectorSized(c: Config, s: State, step: Step)
    requires c.Valid() && Sized(c, s) && Enabled(c, s, step) && ByCollector(step)
    ensures Sized(c, Apply(c, s, step))
  {
  }

  lemma {:induction false} OtherSized(c: Config, s: State, step: Step)
    requires Sized(c, s) && Enabled(c, s, step) && !ByCollector(step)
    ensures Sized(c, Apply(c, s, step))
  {
  }

  lemma {:induction false} StepPlaced(c: Config, s: State, step: Step)
    requires Conserved(s) && Placed(s) && Enabled(c, s, step)
    ensures Placed(Apply(c, s, step))
  {
    match step
    case Take(w) => TakePlaced(c, s, w);
    case StartBatch(w) => HolderPlaced(c, s, step, w);
    case Offer(w) => HolderPlaced(c, s, step, w);
    case FinishBatch(w) => HolderPlaced(c, s, step, w);
    case Exit(w) => ExitPlaced(c, s, w);
    case _ => OtherPlaced(c, s, step);
  }

  lemma {:induction false} TakePlaced(c: Config, s: State, w: nat)
    requires Conserved(s) && Placed(s) && Enabled(c, s, Take(w))
    ensures Placed(Apply(c, s, Take(w)))
  {
    assert s.batches[0] == s.dispatched[s.taken];
    PlacedAfter(s, Apply(c, s, Take(w)), w);
  }

  lemma {:induction false} HolderPlaced(c: Config, s: State, step: Step, w: nat)
    requires Placed(s) && Enabled(c, s, step) && step in {StartBatch(w), Offer(w), FinishBatch(w)}
    requires s.taken <= |s.dispatched|
    ensures Placed(Apply(c, s, step))
  {
    assert s.workers[w].Holds(s.workers[w].id);
    PlacedAfter(s, Apply(c, s, step), w);
  }

  lemma {:induction false} ExitPlaced(c: Config, s: State, w: nat)
    requires Conserved(s) && Placed(s) && Enabled(c, s, Exit(w))
    ensures Placed(Apply(c, s, Exit(w)))
  {
    PlacedAfter(s, Apply(c, s, Exit(w)), w);
  }

  lemma {:induction false} OtherPlaced(c: Config, s: State, step: Step)
    requires Placed(s) && Enabled(c, s, step) && !ByWorker(step)
    ensures Placed(Apply(c, s, step))
  {
    PlacedSame(s, Apply(c, s, step));
  }

  /** The pool did not change. */
  lemma {:induction false} PlacedSame(s: State, t: State)
    requires Placed(s) && t.workers == s.workers && t.taken == s.taken && t.finished == s.finished
    requires s.dispatched <= t.dispatched
    ensures Placed(t)
  {
    forall k: nat | k < t.taken && k !in t.finished
      ensures exists i :: 0 <= i < |t.workers| && t.workers[i].Holds(k)
    {
      var i :| 0 <= i < |s.workers| && s.workers[i].Holds(k);
      assert t.workers[i].Holds(k);
    }
  }

  /** One worker changed; whoever held another batch still holds it. */
  lemma {:induction false} PlacedAfter(s: State, t: State, w: nat)
    requires Placed(s) && w < |s.workers| && t.dispatched == s.dispatched
    requires |t.workers| == |s.workers| && t.workers == s.workers[w := t.workers[w]]
    requires s.taken <= t.taken <= |t.dispatched|
    requires forall k: nat :: s.taken <= k < t.taken ==> t.workers[w].Holds(k)
    requires forall k: nat :: s.workers[w].Holds(k) ==> t.workers[w].Holds(k) || k in t.finished
    requires forall k: nat :: k in t.finished <==> k in s.finished || (s.workers[w].Holds(k) && !t.workers[w].Holds(k))
    requires forall k: nat :: t.workers[w].Holds(k) ==>
               (s.workers[w].Holds(k) || s.taken <= k < t.taken) && t.workers[w].batch == t.dispatched[k]
    requires t.workers[w].Working? ==> t.workers[w].next <= |t.workers[w].batch|
    ensures Placed(t)
  {
    forall k: nat | k < t.taken && k !in t.finished
      ensures exists i :: 0 <= i < |t.workers| && t.workers[i].Holds(k)
    {
      if k < s.taken {
        var i :| 0 <= i < |s.workers| && s.workers[i].Holds(k);
        assert t.workers[i].Holds(k);
      } else {
        assert t.workers[w].Holds(k);
      }
    }
    forall k: nat | k in t.finished ensures k < t.taken {
      if k !in s.finished { assert s.workers[w].Holds(k); }
    }
    forall i, j, k: nat | 0 <= i < |t.workers| && 0 <= j < |t.workers| && t.workers[i].Holds(k) && t.workers[j].Holds(k)
      ensures i == j
    {
      assert i == w || s.workers[i].Holds(k);
      assert j == w || s.workers[j].Holds(k);
    }
    forall i, k: nat | 0 <= i < |t.workers| && t.workers[i].Holds(k)
      ensures k < t.taken && k !in t.finished && k < |t.dispatched| && t.workers[i].batch == t.dispatched[k]
    {
      assert i == w || s.workers[i].Holds(k);
    }
  }

  lemma {:induction false} StepStaged(c: Config, s: State, step: Step)
    requires Staged(s) && Enabled(c, s, step) && !step.CollectorSendFails?
    ensures Staged(Apply(c, s, step))
  {
    if ByWorker(step) {
      WorkerStaged(c, s, step);
    } else {
      OtherStaged(c, s, step);
    }
  }

  lemma {:induction false} WorkerStaged(c: Config, s: State, step: Step)
    requires Staged(s) && Enabled(c, s, step) && ByWorker(step)
    ensures Staged(Apply(c, s, step))
  {
  }

  lemma {:induction false} OtherStaged(c: Config, s: State, step: Step)
    requires Staged(s) && Enabled(c, s, step) && !ByWorker(step) && !step.CollectorSendFails?
    ensures Staged(Apply(c, s, step))
  {
  }

  /** The in-flight load is bounded by the pool, so no counter of the manager wraps. */
  lemma {:induction false} InFlightBound(c: Config, s: State)
    requires c.Valid() && Sized(c, s) && Placed(s) && Counted(s)
    ensures s.gauges.inFlight <= c.workers * c.batchSize
    ensures s.gauges.inFlight * BYTES_PER_MESSAGE < WORD
    ensures forall i :: 0 <= i < |s.workers| ==> Busy(s.workers[i]) <= s.gauges.inFlight
  {
    forall i | 0 <= i < |s.workers| ensures Busy(s.workers[i]) <= c.batchSize {
      HeldSize(c, s, i);
    }
    SumBound(s.workers, Busy, c.batchSize);
  }

  lemma {:induction false} HeldSize(c: Config, s: State, i: nat)
    requires Sized(c, s) && Placed(s) && i < |s.workers|
    ensures s.workers[i].Received? || s.workers[i].Working? ==> 1 <= |s.workers[i].batch| <= c.batchSize
  {
    if s.workers[i].Received? || s.workers[i].Working? {
      var id := s.workers[i].id;
      assert s.workers[i].Holds(id);
      assert 1 <= |s.dispatched[id]| <= c.batchSize;
    }
  }

  /** The pool with one more batch started is still within the bound. */
  lemma {:induction false} StartFits(c: Config, s: State, w: nat)
    requires c.Valid() && Sized(c, s) && Placed(s) && Counted(s)
    requires w < |s.workers| && s.workers[w].Received?
    ensures s.gauges.inFlight + |s.workers[w].batch| <= c.workers * c.batchSize
    ensures Start(s.gauges, |s.workers[w].batch|).inFlight == s.gauges.inFlight + |s.workers[w].batch|
  {
    var held := s.workers[w];
    var ws := s.workers[w := Working(held.id, held.batch, 0)];
    forall i | 0 <= i < |ws| ensures Busy(ws[i]) <= c.batchSize {
      HeldSize(c, s, i);
    }
    SumBound(ws, Busy, c.batchSize);
    SumUpdate(s.workers, w, ws[w], Busy);
    AddFits(s.gauges.inFlight, |held.batch|, c.workers * c.batchSize);
  }

  lemma {:induction false} AddFits(a: nat, b: nat, limit: nat)
    requires a + b <= limit && limit * BYTES_PER_MESSAGE < WORD
    ensures AddWord(a, b) == a + b
  {
  }

  /** Replacing one worker moves the total by the difference. */
  lemma {:induction false} CountedAfter(s: State, t: State, w: nat, held: Worker)
    requires Counted(s) && w < |s.workers| && t.workers == s.workers[w := held]
    requires t.gauges.inFlight == s.gauges.inFlight - Busy(s.workers[w]) + Busy(held)
    ensures Counted(t)
  {
    SumUpdate(s.workers, w, held, Busy);
  }

  lemma {:induction false} StepCounted(c: Config, s: State, step: Step)
    requires c.Valid() && Sized(c, s) && Placed(s) && Counted(s) && Enabled(c, s, step)
    ensures Counted(Apply(c, s, step))
  {
    match step
    case StartBatch(w) => StartCounted(c, s, w);
    case FinishBatch(w) => FinishCounted(c, s, w);
    case Take(w) => KeepingCounted(c, s, step, w);
    case Offer(w) => KeepingCounted(c, s, step, w);
    case Exit(w) => KeepingCounted(c, s, step, w);
    case _ => OtherCounted(c, s, step);
  }

  /** The worker's step does not change what it has started. */
  lemma {:induction false} KeepingCounted(c: Config, s: State, step: Step, w: nat)
    requires Counted(s) && Enabled(c, s, step) && step in {Take(w), Offer(w), Exit(w)}
    ensures Counted(Apply(c, s, step))
  {
    CountedAfter(s, Apply(c, s, step), w, Apply(c, s, step).workers[w]);
  }

  lemma {:induction false} StartCounted(c: Config, s: State, w: nat)
    requires c.Valid() && Sized(c, s) && Placed(s) && Counted(s) && Enabled(c, s, StartBatch(w))
    ensures Counted(Apply(c, s, StartBatch(w)))
  {
    StartFits(c, s, w);
    CountedAfter(s, Apply(c, s, StartBatch(w)), w, Working(s.workers[w].id, s.workers[w].batch, 0));
  }

  lemma {:induction false} FinishCounted(c: Config, s: State, w: nat)
    requires c.Valid() && Sized(c, s) && Placed(s) && Counted(s) && Enabled(c, s, FinishBatch(w))
    ensures Counted(Apply(c, s, FinishBatch(w)))
  {
    InFlightBound(c, s);
    assert Busy(s.workers[w]) <= s.gauges.inFlight;
    NoWrap(c.points, s.gauges, |s.workers[w].batch|);
    CountedAfter(s, Apply(c, s, FinishBatch(w)), w, Idle);
  }

  lemma {:induction false} OtherCounted(c: Config, s: State, step: Step)
    requires Counted(s) && Enabled(c, s, step) && !ByWorker(step)
    ensures Counted(Apply(c, s, step))
  {
    assert Apply(c, s, step).workers == s.workers;
  }

  lemma {:induction false} StepSignalled(c: Config, s: State, step: Step)
    requires c.Valid() && Sized(c, s) && Placed(s) && Counted(s) && Signalled(c, s) && Enabled(c, s, step)
    ensures Signalled(c, Apply(c, s, step))
  {
    match step
    case CheckResources => CheckSignalled(c, s);
    case StartBatch(w) => StartSignalled(c, s, w);
    case FinishBatch(w) => FinishSignalled(c, s, w);
    case _ => OtherSignalled(c, s, step);
  }

  lemma {:induction false} CheckSignalled(c: Config, s: State)
    requires c.Valid() && Signalled(c, s) && Enabled(c, s, CheckResources)
    ensures Signalled(c, Apply(c, s, CheckResources))
  {
    if !Check(c.points, s.gauges).1 {
      FailedCheckIsUnreleased(c.points, s.gauges);
    }
  }

  lemma {:induction false} StartSignalled(c: Config, s: State, w: nat)
    requires c.Valid() && Sized(c, s) && Placed(s) && Counted(s) && Signalled(c, s) && Enabled(c, s, StartBatch(w))
    ensures Signalled(c, Apply(c, s, StartBatch(w)))
  {
    StartFits(c, s, w);
    if !Released(c.points, s.gauges.inFlight) {
      UnreleasedIsMonotone(c.points, s.gauges.inFlight, Apply(c, s, StartBatch(w)).gauges.inFlight);
    }
  }

  lemma {:induction false} FinishSignalled(c: Config, s: State, w: nat)
    requires Signalled(c, s) && Enabled(c, s, FinishBatch(w))
    ensures Signalled(c, Apply(c, s, FinishBatch(w)))
  {
  }

  lemma {:induction false} OtherSignalled(c: Config, s: State, step: Step)
    requires Signalled(c, s) && Enabled(c, s, step)
    requires !step.CheckResources? && !step.StartBatch? && !step.FinishBatch?
    ensures Signalled(c, Apply(c, s, step))
  {
  }

  /** Replacing one worker hands over, offers, or keeps events, and nothing else. */
  lemma {:induction false} OfferedAfterUpdate(s: State, t: State, w: nat, held: Worker, handed: seq<SolanaEvent>, offering: seq<SolanaEvent>)
    requires Offered(s) && InOrder(s) && w < |s.workers| && t.workers == s.workers[w := held]
    requires t.taken <= |t.dispatched|
    requires Flat(t.dispatched[..t.taken]) == Flat(s.dispatched[..s.taken]) + handed
    requires t.offered == s.offered + offering
    requires Unoffered(s.workers[w]) + handed == offering + Unoffered(held)
    ensures Offered(t) && InOrder(t)
  {
    OrderAfterUpdate(s, t, w, held, handed, offering);
    var before, after := multiset(Unoffered(s.workers[w])), multiset(Unoffered(held));
    UnofferedSumUpdate(s.workers, w, held);
    assert before + multiset(handed) == multiset(offering) + after by {
      assert multiset(Unoffered(s.workers[w]) + handed) == multiset(offering + Unoffered(held));
    }
    Balance(multiset(Flat(s.dispatched[..s.taken])), multiset(s.offered), UnofferedSum(s.workers), UnofferedSum(t.workers),
            before, after, multiset(handed), multiset(offering));
  }

  lemma {:induction false} OrderAfterUpdate(s: State, t: State, w: nat, held: Worker, handed: seq<SolanaEvent>, offering: seq<SolanaEvent>)
    requires InOrder(s) && w < |s.workers| && t.workers == s.workers[w := held]
    requires t.taken <= |t.dispatched|
    requires Flat(t.dispatched[..t.taken]) == Flat(s.dispatched[..s.taken]) + handed
    requires t.offered == s.offered + offering
    requires Unoffered(s.workers[w]) + handed == offering + Unoffered(held)
    ensures InOrder(t)
  {
    if |s.workers| == 1 {
      Regroup(s.offered, Unoffered(s.workers[w]), handed, offering, Unoffered(held));
    }
  }

  lemma {:induction false} Regroup<T>(offered: seq<T>, before: seq<T>, handed: seq<T>, offering: seq<T>, after: seq<T>)
    requires before + handed == offering + after
    ensures (offered + before) + handed == (offered + offering) + after
  {
    assert (offered + before) + handed == offered + (before + handed);
  }

  lemma {:induction false} Balance<T>(total: multiset<T>, offered: multiset<T>, sum: multiset<T>, sum': multiset<T>,
                   before: multiset<T>, after: multiset<T>, handed: multiset<T>, offering: multiset<T>)
    requires total == offered + sum
    requires sum' + before == sum + after
    requires before + handed == offering + after
    ensures total + handed == (offered + offering) + sum'
  {
    forall x ensures (total + handed)[x] == ((offered + offering) + sum')[x] {
      assert (sum' + before)[x] == (sum + after)[x];
      assert (before + handed)[x] == (offering + after)[x];
    }
  }

  lemma {:induction false} TakeOffered(c: Config, s: State, w: nat)
    requires Conserved(s) && Offered(s) && InOrder(s) && Enabled(c, s, Take(w))
    ensures Offered(Apply(c, s, Take(w))) && InOrder(Apply(c, s, Take(w)))
  {
    OfferedAfterTake(s);
    OfferedAfterUpdate(s, Apply(c, s, Take(w)), w, Received(s.taken, s.batches[0]), s.batches[0], []);
  }

  /** The worker's step neither hands over nor offers an event. */
  lemma {:induction false} KeepingOffered(c: Config, s: State, step: Step, w: nat)
    requires Placed(s) && Offered(s) && InOrder(s) && Enabled(c, s, step)
    requires step in {StartBatch(w), FinishBatch(w), Exit(w)} && s.taken <= |s.dispatched|
    ensures Offered(Apply(c, s, step)) && InOrder(Apply(c, s, step))
  {
    if step == StartBatch(w) {
      UnofferedAtStart(s.workers[w]);
    }
    OfferedAfterUpdate(s, Apply(c, s, step), w, Apply(c, s, step).workers[w], [], []);
  }

  lemma {:induction false} OfferOffered(c: Config, s: State, w: nat)
    requires Offered(s) && InOrder(s) && Enabled(c, s, Offer(w))
    ensures Offered(Apply(c, s, Offer(w))) && InOrder(Apply(c, s, Offer(w)))
  {
    var held := s.workers[w];
    UnofferedAfterOffer(held);
    OfferedAfterUpdate(s, Apply(c, s, Offer(w)), w, held.(next := held.next + 1), [], [held.batch[held.next]]);
  }

  lemma {:induction false} StepOffered(c: Config, s: State, step: Step)
    requires Conserved(s) && Placed(s) && Offered(s) && InOrder(s) && Enabled(c, s, step)
    ensures Offered(Apply(c, s, step)) && InOrder(Apply(c, s, step))
  {
    match step
    case Take(w) => TakeOffered(c, s, w);
    case StartBatch(w) => KeepingOffered(c, s, step, w);
    case Offer(w) => OfferOffered(c, s, w);
    case FinishBatch(w) => KeepingOffered(c, s, step, w);
    case Exit(w) => KeepingOffered(c, s, step, w);
    case _ => OtherOffered(c, s, step);
  }

  lemma {:induction false} OtherOffered(c: Config, s: State, step: Step)
    requires Conserved(s) && Offered(s) && InOrder(s) && Enabled(c, s, step) && !ByWorker(step)
    ensures Offered(Apply(c, s, step)) && InOrder(Apply(c, s, step))
  {
    if step == CollectorSend {
      OfferedAfterSend(s, s.collector.batch);
    }
  }

  lemma {:induction false} OfferedAfterSend(s: State, batch: seq<SolanaEvent>)
    requires s.taken <= |s.dispatched|
    ensures (s.dispatched + [batch])[..s.taken] == s.dispatched[..s.taken]
  {
  }

  lemma {:induction false} OfferedAfterTake(s: State)
    requires Conserved(s) && |s.batches| > 0
    ensures Flat(s.dispatched[..s.taken + 1]) == Flat(s.dispatched[..s.taken]) + s.batches[0]
  {
    assert s.batches[0] == s.dispatched[s.taken];
    assert s.dispatched[..s.taken + 1][..s.taken] == s.dispatched[..s.taken];
  }

  lemma {:induction false} UnofferedAtStart(held: Worker)
    requires held.Received?
    ensures Unoffered(held) == Unoffered(Working(held.id, held.batch, 0))
  {
    assert held.batch[0..] == held.batch;
  }

  lemma {:induction false} UnofferedAfterOffer(held: Worker)
    requires held.Working? && held.next < |held.batch|
    ensures Unoffered(held) == [held.batch[held.next]] + Unoffered(held.(next := held.next + 1))
  {
    assert held.batch[held.next..] == [held.batch[held.next]] + held.batch[held.next + 1..];
  }

  lemma {:induction false} FinishedEventsSame(d: seq<seq<SolanaEvent>>, d': seq<seq<SolanaEvent>>, finished: set<nat>, n: nat)
    requires n <= |d| && d <= d'
    ensures FinishedEvents(d', finished, n) == FinishedEvents(d, finished, n)
  {
    if n > 0 {
      FinishedEventsSame(d, d', finished, n - 1);
    }
  }

  lemma {:induction false} FinishedEventsAdd(d: seq<seq<SolanaEvent>>, finished: set<nat>, id: nat, n: nat)
    requires n <= |d| && id !in finished
    ensures FinishedEvents(d, finished + {id}, n) == FinishedEvents(d, finished, n) + if id < n then |d[id]| else 0
  {
    if n > 0 {
      FinishedEventsAdd(d, finished, id, n - 1);
    }
  }

  lemma {:induction false} TakeBalanced(c: Config, s: State, w: nat)
    requires Conserved(s) && Placed(s) && Balanced(s) && Enabled(c, s, Take(w))
    ensures Balanced(Apply(c, s, Take(w)))
  {
    OfferedAfterTake(s);
    SumUpdate(s.workers, w, Received(s.taken, s.batches[0]), Carried);
    assert s.batches[0] == s.dispatched[s.taken];
  }

  lemma {:induction false} SendBalanced(c: Config, s: State)
    requires Balanced(s) && Enabled(c, s, CollectorSend)
    ensures Balanced(Apply(c, s, CollectorSend))
  {
    OfferedAfterSend(s, s.collector.batch);
    FinishedEventsSame(s.dispatched, s.dispatched + [s.collector.batch], s.finished, s.taken);
  }

  lemma {:induction false} FinishBalanced(c: Config, s: State, w: nat)
    requires Placed(s) && Balanced(s) && Enabled(c, s, FinishBatch(w))
    ensures Balanced(Apply(c, s, FinishBatch(w)))
  {
    SumUpdate(s.workers, w, Idle, Carried);
    assert s.workers[w].Holds(s.workers[w].id);
    FinishedEventsAdd(s.dispatched, s.finished, s.workers[w].id, s.taken);
  }

  /** A worker that carries the same events as before. */
  lemma {:induction false} SameBalanced(s: State, t: State, w: nat, held: Worker)
    requires Balanced(s) && w < |s.workers| && t.workers == s.workers[w := held] && Carried(held) == Carried(s.workers[w])
    requires t.taken == s.taken && t.dispatched == s.dispatched && t.finished == s.finished
    ensures Balanced(t)
  {
    SumUpdate(s.workers, w, held, Carried);
  }

  lemma {:induction false} StepBalanced(c: Config, s: State, step: Step)
    requires Conserved(s) && Placed(s) && Balanced(s) && Enabled(c, s, step)
    ensures Balanced(Apply(c, s, step))
  {
    match step
    case CollectorSend => SendBalanced(c, s);
    case Take(w) => TakeBalanced(c, s, w);
    case StartBatch(w) => KeepingBalanced(c, s, step, w);
    case Offer(w) => KeepingBalanced(c, s, step, w);
    case FinishBatch(w) => FinishBalanced(c, s, w);
    case Exit(w) => KeepingBalanced(c, s, step, w);
    case _ => OtherBalanced(c, s, step);
  }

  /** The worker carries what it carried. */
  lemma {:induction false} KeepingBalanced(c: Config, s: State, step: Step, w: nat)
    requires Balanced(s) && Enabled(c, s, step) && step in {StartBatch(w), Offer(w), Exit(w)}
    ensures Balanced(Apply(c, s, step))
  {
    SameBalanced(s, Apply(c, s, step), w, Apply(c, s, step).workers[w]);
  }

  lemma {:induction false} OtherBalanced(c: Config, s: State, step: Step)
    requires Balanced(s) && Enabled(c, s, step) && !ByWorker(step) && step != CollectorSend
    ensures Balanced(Apply(c, s, step))
  {
    var t := Apply(c, s, step);
    assert t.workers == s.workers && t.dispatched == s.dispatched && t.finished == s.finished;
  }

  lemma {:induction false} StepInv(c: Config, s: State, step: Step)
    requires c.Valid() && Inv(c, s) && Enabled(c, s, step)
    ensures Inv(c, Apply(c, s, step))
  {
    SendNeverFails(c, s);
    StepConserved(c, s, step);
    StepSized(c, s, step);
    StepPlaced(c, s, step);
    StepStaged(c, s, step);
    StepCounted(c, s, step);
    StepSignalled(c, s, step);
    StepOffered(c, s, step);
    StepBalanced(c, s, step);
  }

  lemma {:induction false} RunInv(c: Config, s: State, steps: seq<Step>)
    requires c.Valid() && Inv(c, s) && Runs(c, s, steps)
    ensures Inv(c, After(c, s, steps))
    decreases |steps|
  {
    if steps != [] {
      StepInv(c, s, steps[0]);
      RunInv(c, Apply(c, s, steps[0]), steps[1..]);
    }
  }

  lemma {:induction false} ReachableInv(c: Config, s: State)
    requires c.Valid() && Reachable(c, s)
    ensures Inv(c, s)
  {
    var steps :| Runs(c, Init(c), steps) && After(c, Init(c), steps) == s;
    InitInv(c);
    RunInv(c, Init(c), steps);
  }
}

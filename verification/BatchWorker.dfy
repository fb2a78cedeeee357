/** One worker task: it receives batches until the channel is closed and offers every event to the processor. */
module BatchWorker {
  import opened Events
  import opened Sequences
  import opened Resources
  import opened Words

  /** The user's processor: whether it wants an event, and whether its n-th call to `process` succeeds. */
  datatype Processor = Processor(wants: SolanaEvent -> bool, succeeds: nat -> bool)

  datatype Tally = Tally(succeeded: nat, failed: nat) {
    function Calls(): nat { succeeded + failed }
  }

  /** The tally after offering `batch`; events the processor does not want are skipped, not counted. */
  function Offer(p: Processor, batch: seq<SolanaEvent>, t: Tally): Tally
  {
    if |batch| == 0 then t
    else
      var before := Offer(p, batch[..|batch| - 1], t);
      if !p.wants(batch[|batch| - 1]) then before
      else if p.succeeds(before.Calls()) then before.(succeeded := before.succeeded + 1)
      else before.(failed := before.failed + 1)
  }

  function Wanted(p: Processor, batch: seq<SolanaEvent>): nat {
    if |batch| == 0 then 0 else Wanted(p, batch[..|batch| - 1]) + if p.wants(batch[|batch| - 1]) then 1 else 0
  }

  /** No wanted event goes uncounted, whatever the processor answers. */
  lemma {:induction false} EveryWantedEventIsTallied(p: Processor, batch: seq<SolanaEvent>, t: Tally)
    ensures Offer(p, batch, t).Calls() == t.Calls() + Wanted(p, batch)
    ensures t.succeeded <= Offer(p, batch, t).succeeded && t.failed <= Offer(p, batch, t).failed
  {
    if |batch| > 0 {
      EveryWantedEventIsTallied(p, batch[..|batch| - 1], t);
    }
  }

  /** How many of the calls numbered from `start` to `end` succeed. */
  function Successes(p: Processor, start: nat, end: nat): nat
    decreases end
  {
    if start >= end then 0 else Successes(p, start, end - 1) + if p.succeeds(end - 1) then 1 else 0
  }

  /** The first count is of the calls that succeeded, the second of those that failed. */
  lemma {:induction false} CountsMatchAnswers(p: Processor, batch: seq<SolanaEvent>, t: Tally)
    ensures var after := Offer(p, batch, t);
            && after.succeeded == t.succeeded + Successes(p, t.Calls(), t.Calls() + Wanted(p, batch))
            && after.failed == t.failed + Wanted(p, batch) - Successes(p, t.Calls(), t.Calls() + Wanted(p, batch))
  {
    if |batch| > 0 {
      var before := batch[..|batch| - 1];
      CountsMatchAnswers(p, before, t);
      EveryWantedEventIsTallied(p, before, t);
    }
  }

  function Repeat(x: nat, n: nat): seq<nat> { seq(n, _ => x) }

  /** The manager's counters after serving `queue` with no other task in between. */
  function Served(t: Thresholds, g: Gauges, queue: seq<seq<SolanaEvent>>): Gauges {
    if |queue| == 0 then g
    else
      var before := Served(t, g, queue[..|queue| - 1]);
      var n := |queue[|queue| - 1]|;
      if n == 0 then before else Complete(t, Start(before, n), n)
  }

  lemma {:induction false} AddedThenTaken(load: nat, n: nat)
    requires load < WORD && n < WORD
    ensures SubWord(AddWord(load, n), n) == load
  {
    if load + n >= WORD {
      assert (load + n) % WORD == load + n - WORD;
    }
  }

  /** Whatever was served, the in-flight counter comes back to where it was. */
  lemma {:induction false} ServingRestoresInFlight(t: Thresholds, g: Gauges, queue: seq<seq<SolanaEvent>>)
    requires g.inFlight < WORD && forall k :: 0 <= k < |queue| ==> |queue[k]| < WORD
    ensures Served(t, g, queue).inFlight == g.inFlight
  {
    if |queue| > 0 {
      var before := queue[..|queue| - 1];
      assert forall k :: 0 <= k < |before| ==> before[k] == queue[k];
      ServingRestoresInFlight(t, g, before);
      AddedThenTaken(g.inFlight, |queue[|queue| - 1]|);
    }
  }

  /** The in-flight counter at the time each event is offered, with no other task in between. */
  function Loads(t: Thresholds, g: Gauges, queue: seq<seq<SolanaEvent>>): seq<nat> {
    if |queue| == 0 then []
    else
      var before, n := queue[..|queue| - 1], |queue[|queue| - 1]|;
      Loads(t, g, before) + Repeat(Start(Served(t, g, before), n).inFlight, n)
  }

  /** A batch of `n` is offered under `n` on top of what else is in flight. */
  function OwnLoads(inFlight: nat, queue: seq<seq<SolanaEvent>>): seq<nat> {
    if |queue| == 0 then []
    else
      var n := |queue[|queue| - 1]|;
      OwnLoads(inFlight, queue[..|queue| - 1]) + Repeat((inFlight + n) % WORD, n)
  }

  /** Every event is offered with its own batch in flight on top of what other workers have, and nothing else. */
  lemma {:induction false} OwnBatchInFlight(t: Thresholds, g: Gauges, queue: seq<seq<SolanaEvent>>)
    requires g.inFlight < WORD && forall k :: 0 <= k < |queue| ==> |queue[k]| < WORD
    ensures Loads(t, g, queue) == OwnLoads(g.inFlight, queue)
  {
    if |queue| > 0 {
      var before := queue[..|queue| - 1];
      assert forall k :: 0 <= k < |before| ==> before[k] == queue[k];
      OwnBatchInFlight(t, g, before);
      ServingRestoresInFlight(t, g, before);
    }
  }

  class Worker {
    const manager: ResourceManager
    const processor: Processor
    var offered: seq<SolanaEvent>
    /** The manager's in-flight counter when each event was offered. */
    var loads: seq<nat>
    var tally: Tally

    constructor (manager: ResourceManager, processor: Processor)
      ensures this.manager == manager && this.processor == processor
      ensures offered == [] && loads == [] && tally == Tally(0, 0)
    {
      this.manager, this.processor, offered, loads, tally := manager, processor, [], [], Tally(0, 0);
    }

    method ProcessBatch(batch: seq<SolanaEvent>)
      modifies this
      ensures offered == old(offered) + batch
      ensures loads == old(loads) + Repeat(manager.messagesInFlight, |batch|)
      ensures tally == Offer(processor, batch, old(tally))
    {
      for i := 0 to |batch|
        invariant offered == old(offered) + batch[..i]
        invariant loads == old(loads) + Repeat(manager.messagesInFlight, i)
        invariant tally == Offer(processor, batch[..i], old(tally))
      {
        assert batch[..i + 1][..i] == batch[..i];
        offered := offered + [batch[i]];
        loads := loads + [manager.messagesInFlight];
        if processor.wants(batch[i]) {
          if processor.succeeds(tally.Calls()) {
            tally := tally.(succeeded := tally.succeeded + 1);
          } else {
            tally := tally.(failed := tally.failed + 1);
          }
        }
      }
      assert batch[..|batch|] == batch;
    }

    /** The loop over the batch channel; `queue` is what it yields before it is empty and closed. */
    method Serve(queue: seq<seq<SolanaEvent>>)
      modifies this, manager
      ensures offered == old(offered) + Flat(queue)
      ensures loads == old(loads) + Loads(manager.points, old(manager.Counters()), queue)
      ensures manager.Counters() == Served(manager.points, old(manager.Counters()), queue)
    {
      for i := 0 to |queue|
        invariant offered == old(offered) + Flat(queue[..i])
        invariant loads == old(loads) + Loads(manager.points, old(manager.Counters()), queue[..i])
        invariant manager.Counters() == Served(manager.points, old(manager.Counters()), queue[..i])
      {
        assert queue[..i + 1][..i] == queue[..i];
        if |queue[i]| == 0 {
          continue;
        }
        manager.StartProcessing(|queue[i]|);
        ProcessBatch(queue[i]);
        manager.CompleteProcessing(|queue[i]|);
      }
      assert queue[..|queue|] == queue;
    }
  }
}

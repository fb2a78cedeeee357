/** The client's `process_events` loop: gate, fetch, and route to the batch processor or to the handler. */
module Client {
  import opened Events
  import opened Consumer
  import opened ConsumerPipeline

  /** Receives and commits that fail end the loop. */
  predicate Fatal(outcome: Outcome) { outcome.ReceiveError? || outcome.CommitError? }

  /** What the loop routes, in order, until it ends with an error or waits for more messages. */
  function Routed(capacity: nat, s: State, polls: seq<Poll>): (State, seq<SolanaEvent>, Outcome)
    decreases |polls|
  {
    var (t, outcome, rest) := Next(capacity, s, polls);
    if outcome.Pending? || Fatal(outcome) then (t, [], outcome)
    else
      var (u, later, end) := Routed(capacity, t, rest);
      (u, Emitted(outcome) + later, end)
  }

  class BitqueryClient {
    const consumer: StreamConsumer
    /** Whether `enable_batch_processing` has been called. */
    const batchMode: bool
    /** Events passed to `add_event`, and events passed to the handler. */
    var batched: seq<SolanaEvent>
    var handled: seq<SolanaEvent>

    constructor (consumer: StreamConsumer, batchMode: bool)
      ensures this.consumer == consumer && this.batchMode == batchMode && batched == [] && handled == []
    {
      this.consumer, this.batchMode, batched, handled := consumer, batchMode, [], [];
    }

    method Route(event: SolanaEvent)
      modifies this
      ensures batched == if batchMode then old(batched) + [event] else old(batched)
      ensures handled == if batchMode then old(handled) else old(handled) + [event]
    {
      if batchMode {
        batched := batched + [event];
      } else {
        handled := handled + [event];
      }
    }

    /** Neither a failing `add_event` nor a failing handler ends the loop, so their results do not appear. */
    method ProcessEvents(polls: seq<Poll>) returns (end: Outcome)
      requires consumer.Settled()
      modifies this, consumer
      ensures consumer.Settled()
      ensures var (s, routed, outcome) := Routed(consumer.capacity, old(consumer.View()), polls);
              && consumer.View() == s && end == outcome
              && batched == (if batchMode then old(batched) + routed else old(batched))
              && handled == (if batchMode then old(handled) else old(handled) + routed)
    {
      var rest := polls;
      ghost var done: seq<SolanaEvent> := [];
      while true
        invariant consumer.Settled()
        invariant Ahead(consumer.capacity, consumer.View(), rest, done) == Ahead(consumer.capacity, old(consumer.View()), polls, [])
        invariant batched == (if batchMode then old(batched) + done else old(batched))
        invariant handled == (if batchMode then old(handled) else old(handled) + done)
        decreases |rest|
      {
        AheadOnce(consumer.capacity, consumer.View(), rest, done);
        // The client's own gate sees the same signal as the consumer's.
        if rest != [] && rest[0].Throttled? {
          rest := rest[1..];
          continue;
        }
        var outcome;
        outcome, rest := consumer.NextEvent(rest);
        done := done + Emitted(outcome);
        if outcome.Pending? || outcome.ReceiveError? || outcome.CommitError? {
          AheadOfNothing(consumer.capacity, old(consumer.View()), polls);
          return outcome;
        }
        if outcome.Delivered? {
          Route(outcome.event);
        }
      }
    }
  }

  /** The end of the loop seen from state `s` with `polls` to come, everything in `done` having been routed. */
  function Ahead(capacity: nat, s: State, polls: seq<Poll>, done: seq<SolanaEvent>): (State, seq<SolanaEvent>, Outcome) {
    var (t, routed, end) := Routed(capacity, s, polls);
    (t, done + routed, end)
  }

  lemma {:induction false} AheadOfNothing(capacity: nat, s: State, polls: seq<Poll>)
    ensures Ahead(capacity, s, polls, []) == Routed(capacity, s, polls)
  {
    assert [] + Routed(capacity, s, polls).1 == Routed(capacity, s, polls).1;
  }

  /** One turn of the loop does not change what lies ahead. */
  lemma {:induction false} AheadOnce(capacity: nat, s: State, polls: seq<Poll>, done: seq<SolanaEvent>)
    ensures var (t, outcome, rest) := Next(capacity, s, polls);
            Ahead(capacity, s, polls, done) ==
            if outcome.Pending? || Fatal(outcome) then (t, done + Emitted(outcome), outcome)
            else Ahead(capacity, t, rest, done + Emitted(outcome))
    ensures polls != [] && polls[0].Throttled? ==>
              Next(capacity, s, polls) == (s, NothingNow, polls[1..]) && done + Emitted(NothingNow) == done
  {
    var (t, outcome, rest) := Next(capacity, s, polls);
    if !(outcome.Pending? || Fatal(outcome)) {
      var later := Routed(capacity, t, rest).1;
      assert done + (Emitted(outcome) + later) == (done + Emitted(outcome)) + later;
    }
  }

  /** Nothing on the way fails. */
  predicate Healthy(polls: seq<Poll>) {
    CommitsSucceed(polls) && forall i :: 0 <= i < |polls| ==> !polls[i].ReceiveFailed?
  }

  lemma {:induction false} HealthyNext(capacity: nat, s: State, polls: seq<Poll>)
    requires Healthy(polls)
    ensures var (t, outcome, rest) := Next(capacity, s, polls); !Fatal(outcome) && Healthy(rest)
    decreases |polls|
  {
    if polls != [] && (polls[0].FilterSet? || polls[0].Received?) {
      assert Healthy(polls[1..]);
      HealthyNext(capacity, One(capacity, s, polls[0]).0, polls[1..]);
    }
  }

  /** With no receive or commit failing, the loop routes what repeated `next_event` delivers: the whole pipeline. */
  lemma {:induction false} RoutesThePipeline(capacity: nat, s: State, polls: seq<Poll>)
    requires Healthy(polls)
    ensures Routed(capacity, s, polls).1 == Pipeline(capacity, s, polls)
    ensures Routed(capacity, s, polls).2 == Pending
  {
    RoutedIsDrive(capacity, s, polls);
    ConsumerRefinesPipeline(capacity, s, polls);
  }

  lemma {:induction false} RoutedIsDrive(capacity: nat, s: State, polls: seq<Poll>)
    requires Healthy(polls)
    ensures Routed(capacity, s, polls) == (Drive(capacity, s, polls).0, Drive(capacity, s, polls).1, Pending)
    decreases |polls|
  {
    HealthyNext(capacity, s, polls);
    var (t, outcome, rest) := Next(capacity, s, polls);
    if !outcome.Pending? {
      RoutedIsDrive(capacity, t, rest);
    }
  }

  /** In any case what was routed is the beginning of the pipeline's output: an error cuts it, and changes nothing else. */
  lemma {:induction false} RoutedIsPrefix(capacity: nat, s: State, polls: seq<Poll>)
    ensures Routed(capacity, s, polls).1 <= Pipeline(capacity, s, polls)
  {
    PrefixOfDrive(capacity, s, polls);
    ConsumerRefinesPipeline(capacity, s, polls);
  }

  lemma {:induction false} PrefixOfDrive(capacity: nat, s: State, polls: seq<Poll>)
    ensures Routed(capacity, s, polls).1 <= Drive(capacity, s, polls).1
    decreases |polls|
  {
    var (t, outcome, rest) := Next(capacity, s, polls);
    if !outcome.Pending? && !Fatal(outcome) {
      PrefixOfDrive(capacity, t, rest);
    }
  }

  /** The receive fails, or the commit does. */
  predicate Fails(p: Poll) { p.ReceiveFailed? || (p.Received? && !p.commits) }

  /**
   * The loop ends at the first receive or commit that fails, with that error, having routed the whole pipeline output of
   * the polls before it; and it goes on through anything else.
   */
  lemma {:induction false} EndsAtFirstFailure(capacity: nat, s: State, polls: seq<Poll>, k: nat)
    requires k < |polls| && Fails(polls[k]) && forall i :: 0 <= i < k ==> !Fails(polls[i])
    ensures var (t, routed, end) := Routed(capacity, s, polls);
            && end == (if polls[k].ReceiveFailed? then ReceiveError else CommitError)
            && routed == Pipeline(capacity, s, polls[..k])
            && t == Drive(capacity, s, polls[..k + 1]).0
  {
    StopsAtFirstFailure(capacity, s, polls, k);
    FoldIsPipeline(capacity, s, polls[..k]);
    DriveIsFold(capacity, s, polls[..k + 1]);
  }

  lemma {:induction false} StopsAtFirstFailure(capacity: nat, s: State, polls: seq<Poll>, k: nat)
    requires k < |polls| && Fails(polls[k]) && forall i :: 0 <= i < k ==> !Fails(polls[i])
    ensures var (t, routed, end) := Routed(capacity, s, polls);
            && end == (if polls[k].ReceiveFailed? then ReceiveError else CommitError)
            && routed == Fold(capacity, s, polls[..k]).1
            && t == Fold(capacity, s, polls[..k + 1]).0
    decreases |polls|
  {
    NextAnswers(capacity, s, polls);
    var (u, outcome, rest) := Next(capacity, s, polls);
    var n := |polls| - |rest|;
    assert forall m: nat :: m <= |polls| && AllPass(polls[..m]) ==> m <= k by {
      forall m: nat | m <= |polls| && m > k ensures !AllPass(polls[..m]) {
        assert polls[..m][k] == polls[k];
      }
    }
    assert polls[..|polls|] == polls;
    if n <= k {
      StopsLater(capacity, s, polls, k, n);
    }
  }

  /** The first call stops before the failure, so the loop goes on from there. */
  lemma {:induction false} StopsLater(capacity: nat, s: State, polls: seq<Poll>, k: nat, n: nat)
    requires k < |polls| && Fails(polls[k]) && forall i :: 0 <= i < k ==> !Fails(polls[i])
    requires n == |polls| - |Next(capacity, s, polls).2| && n <= k
    ensures var (t, routed, end) := Routed(capacity, s, polls);
            && end == (if polls[k].ReceiveFailed? then ReceiveError else CommitError)
            && routed == Fold(capacity, s, polls[..k]).1
            && t == Fold(capacity, s, polls[..k + 1]).0
    decreases |polls|, 0
  {
    NextAnswers(capacity, s, polls);
    var (u, outcome, rest) := Next(capacity, s, polls);
    assert !outcome.Pending?;
    assert !Fails(polls[n - 1]);
    StopsAtFirstFailure(capacity, u, rest, k - n);
    FirstCallThenRest(capacity, s, polls, n, k);
    FirstCallThenRest(capacity, s, polls, n, k + 1);
  }

  lemma {:induction false} FirstCallThenRest(capacity: nat, s: State, polls: seq<Poll>, n: nat, m: nat)
    requires n == |polls| - |Next(capacity, s, polls).2| && n <= m <= |polls| && !Next(capacity, s, polls).1.Pending?
    ensures var (u, outcome, rest) := Next(capacity, s, polls);
            && m - n <= |rest|
            && Fold(capacity, s, polls[..m]) ==
               (Fold(capacity, u, rest[..m - n]).0, Emitted(outcome) + Fold(capacity, u, rest[..m - n]).1)
  {
    NextAnswers(capacity, s, polls);
    var (u, outcome, rest) := Next(capacity, s, polls);
    FirstCallEmits(capacity, s, polls, n);
    assert polls[..m] == polls[..n] + rest[..m - n];
    FoldConcat(capacity, s, polls[..n], rest[..m - n]);
  }

  lemma {:induction false} FirstCallEmits(capacity: nat, s: State, polls: seq<Poll>, n: nat)
    requires n == |polls| - |Next(capacity, s, polls).2| && !Next(capacity, s, polls).1.Pending?
    ensures n > 0 && Fold(capacity, s, polls[..n]).1 == Emitted(Next(capacity, s, polls).1)
  {
    NextAnswers(capacity, s, polls);
    var outcome := Next(capacity, s, polls).1;
    var u := Fold(capacity, s, polls[..n - 1]).0;
    assert polls[..n] == polls[..n - 1] + [polls[n - 1]];
    FoldConcat(capacity, s, polls[..n - 1], [polls[n - 1]]);
    FoldSingle(capacity, u, polls[n - 1]);
    DeliversExactlyWhen(capacity, u, polls[n - 1]);
    assert [] + Emitted(outcome) == Emitted(outcome);
    if outcome.Delivered? {
      assert One(capacity, u, polls[n - 1]).1 == [outcome.event];
    }
  }
}

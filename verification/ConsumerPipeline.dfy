/** Repeated calls of `next_event` deliver exactly commit(filter(deduplicate(parse(messages)))), in order. */
module ConsumerPipeline {
  import opened Events
  import opened Messages
  import opened Consumer

  // ---------------------------------------------------------------- repeated calls

  function Emitted(outcome: Outcome): seq<SolanaEvent> { if outcome.Delivered? then [outcome.event] else [] }

  /** Call `next_event` again and again, whatever it returns, until it waits for more messages. */
  function Drive(capacity: nat, s: State, polls: seq<Poll>): (State, seq<SolanaEvent>)
    decreases |polls|
  {
    var (t, outcome, rest) := Next(capacity, s, polls);
    if outcome.Pending? then (t, [])
    else
      var (u, later) := Drive(capacity, t, rest);
      (u, Emitted(outcome) + later)
  }

  /** One poll, without regard to where calls begin and end. */
  function One(capacity: nat, s: State, poll: Poll): (State, seq<SolanaEvent>) {
    match poll
    case FilterSet(filter) => (s.(filter := Some(filter)), [])
    case Received(m, commits) =>
      var (seen, event) := Process(capacity, s.seen, m);
      (State(seen, s.filter, s.received + [m], s.commits + [Commit(m, commits)]),
       if commits && event.Some? && Matches(s.filter, event.value) then [event.value] else [])
    case _ => (s, [])
  }

  function Fold(capacity: nat, s: State, polls: seq<Poll>): (State, seq<SolanaEvent>)
    decreases |polls|
  {
    if polls == [] then (s, [])
    else
      var (t, now) := One(capacity, s, polls[0]);
      var (u, later) := Fold(capacity, t, polls[1..]);
      (u, now + later)
  }

  lemma {:induction false} NextIsFold(capacity: nat, s: State, polls: seq<Poll>)
    ensures var (t, outcome, rest) := Next(capacity, s, polls);
            var (u, later) := Fold(capacity, t, rest);
            Fold(capacity, s, polls) == (u, Emitted(outcome) + later)
    decreases |polls|
  {
    var nothing: seq<SolanaEvent> := [];
    if polls == [] {
      assert nothing + nothing == nothing;
    } else {
      var t := One(capacity, s, polls[0]).0;
      NextIsFold(capacity, t, polls[1..]);
      var (u, later) := Fold(capacity, t, polls[1..]);
      assert nothing + later == later;
    }
  }

  lemma {:induction false} DriveIsFold(capacity: nat, s: State, polls: seq<Poll>)
    ensures Drive(capacity, s, polls) == Fold(capacity, s, polls)
    decreases |polls|
  {
    NextIsFold(capacity, s, polls);
    var (t, outcome, rest) := Next(capacity, s, polls);
    if outcome.Pending? {
      var nothing: seq<SolanaEvent> := [];
      assert nothing + nothing == nothing;
    } else {
      DriveIsFold(capacity, t, rest);
    }
  }

  // ---------------------------------------------------------------- the stages

  /** A received message with the filter in force when it came and whether its commit succeeds. */
  datatype Arrival = Arrival(message: Message, filter: Option<Filter>, commits: bool)

  datatype Item = Item(event: SolanaEvent, filter: Option<Filter>, commits: bool)

  function Arrivals(filter: Option<Filter>, polls: seq<Poll>): seq<Arrival>
    decreases |polls|
  {
    if polls == [] then []
    else
      match polls[0]
      case FilterSet(f) => Arrivals(Some(f), polls[1..])
      case Received(m, commits) => [Arrival(m, filter, commits)] + Arrivals(filter, polls[1..])
      case _ => Arrivals(filter, polls[1..])
  }

  function ParseStage(arrivals: seq<Arrival>): seq<Item> {
    if arrivals == [] then []
    else
      var a := arrivals[0];
      var parsed := Parse(a.message);
      (if parsed.Parsed? then [Item(parsed.event, a.filter, a.commits)] else []) + ParseStage(arrivals[1..])
  }

  function DedupStage(capacity: nat, seen: set<string>, items: seq<Item>): (set<string>, seq<Item>)
    decreases |items|
  {
    if items == [] then (seen, [])
    else
      var (grown, isNew) := Remember(capacity, seen, items[0].event.signature);
      var (final, later) := DedupStage(capacity, grown, items[1..]);
      (final, (if isNew then [items[0]] else []) + later)
  }

  function FilterStage(items: seq<Item>): seq<Item> {
    if items == [] then []
    else (if Matches(items[0].filter, items[0].event) then [items[0]] else []) + FilterStage(items[1..])
  }

  function CommitStage(items: seq<Item>): seq<Item> {
    if items == [] then [] else (if items[0].commits then [items[0]] else []) + CommitStage(items[1..])
  }

  function EventsOf(items: seq<Item>): seq<SolanaEvent> {
    if items == [] then [] else [items[0].event] + EventsOf(items[1..])
  }

  /** The stages one after the other. */
  function Pipeline(capacity: nat, s: State, polls: seq<Poll>): seq<SolanaEvent> {
    EventsOf(CommitStage(FilterStage(DedupStage(capacity, s.seen, ParseStage(Arrivals(s.filter, polls))).1)))
  }

  /** One item in front of a stage, dropped or passed on. */
  lemma {:induction false} StagesOfOne(item: Item, isNew: bool, later: seq<Item>)
    ensures EventsOf(CommitStage(FilterStage((if isNew then [item] else []) + later))) ==
            (if isNew && Matches(item.filter, item.event) && item.commits then [item.event] else [])
            + EventsOf(CommitStage(FilterStage(later)))
  {
    if isNew {
      assert ([item] + later)[1..] == later;
      if Matches(item.filter, item.event) {
        assert ([item] + FilterStage(later))[1..] == FilterStage(later);
        if item.commits {
          assert ([item] + CommitStage(FilterStage(later)))[1..] == CommitStage(FilterStage(later));
        } else {
          assert [] + CommitStage(FilterStage(later)) == CommitStage(FilterStage(later));
        }
      } else {
        assert [] + FilterStage(later) == FilterStage(later);
      }
    } else {
      assert [] + later == later;
    }
  }

  lemma {:induction false} FoldIsPipeline(capacity: nat, s: State, polls: seq<Poll>)
    ensures var (t, delivered) := Fold(capacity, s, polls);
            && delivered == Pipeline(capacity, s, polls)
            && t.seen == DedupStage(capacity, s.seen, ParseStage(Arrivals(s.filter, polls))).0
            && t.received == s.received + MessagesOf(Arrivals(s.filter, polls))
    decreases |polls|
  {
    if polls != [] {
      var t := One(capacity, s, polls[0]).0;
      FoldIsPipeline(capacity, t, polls[1..]);
      if polls[0].Received? {
        FoldReceived(capacity, s, polls);
      }
    }
  }

  function MessagesOf(arrivals: seq<Arrival>): seq<Message> {
    if arrivals == [] then [] else [arrivals[0].message] + MessagesOf(arrivals[1..])
  }

  lemma {:induction false} FoldReceived(capacity: nat, s: State, polls: seq<Poll>)
    requires polls != [] && polls[0].Received?
    requires var (u, later) := Fold(capacity, One(capacity, s, polls[0]).0, polls[1..]);
             var arrivals, t := Arrivals(s.filter, polls[1..]), One(capacity, s, polls[0]).0;
             && later == Pipeline(capacity, t, polls[1..])
             && u.seen == DedupStage(capacity, t.seen, ParseStage(arrivals)).0
             && u.received == t.received + MessagesOf(arrivals)
    ensures var (t, delivered) := Fold(capacity, s, polls);
            && delivered == Pipeline(capacity, s, polls)
            && t.seen == DedupStage(capacity, s.seen, ParseStage(Arrivals(s.filter, polls))).0
            && t.received == s.received + MessagesOf(Arrivals(s.filter, polls))
  {
    var arrivals := Arrivals(s.filter, polls[1..]);
    var first := Arrival(polls[0].message, s.filter, polls[0].commits);
    assert ([first] + arrivals)[1..] == arrivals;
    FirstArrival(capacity, s.seen, first, arrivals);
  }

  /** What the stages make of one more arrival in front. */
  lemma {:induction false} FirstArrival(capacity: nat, seen: set<string>, first: Arrival, rest: seq<Arrival>)
    ensures var (grown, event) := Process(capacity, seen, first.message);
            var before, after := DedupStage(capacity, seen, ParseStage([first] + rest)), DedupStage(capacity, grown, ParseStage(rest));
            && before.0 == after.0
            && EventsOf(CommitStage(FilterStage(before.1))) ==
               (if first.commits && event.Some? && Matches(first.filter, event.value) then [event.value] else [])
               + EventsOf(CommitStage(FilterStage(after.1)))
  {
    assert ([first] + rest)[1..] == rest;
    var parsed, items := Parse(first.message), ParseStage(rest);
    if parsed.Parsed? {
      var item := Item(parsed.event, first.filter, first.commits);
      var (grown, isNew) := Remember(capacity, seen, parsed.event.signature);
      assert ([item] + items)[1..] == items;
      StagesOfOne(item, isNew, DedupStage(capacity, grown, items).1);
    } else {
      assert [] + items == items;
      var same := EventsOf(CommitStage(FilterStage(DedupStage(capacity, seen, items).1)));
      assert [] + same == same;
    }
  }

  /** The consumer refines the pipeline, for every stream, every throttling, every failure and every filter change. */
  lemma {:induction false} ConsumerRefinesPipeline(capacity: nat, s: State, polls: seq<Poll>)
    ensures Drive(capacity, s, polls).1 == Pipeline(capacity, s, polls)
    ensures Drive(capacity, s, polls).0.received == s.received + MessagesOf(Arrivals(s.filter, polls))
  {
    DriveIsFold(capacity, s, polls);
    FoldIsPipeline(capacity, s, polls);
  }

  /** Handling polls in two portions. */
  lemma {:induction false} FoldConcat(capacity: nat, s: State, first: seq<Poll>, second: seq<Poll>)
    ensures var (t, earlier) := Fold(capacity, s, first);
            var (u, later) := Fold(capacity, t, second);
            Fold(capacity, s, first + second) == (u, earlier + later)
    decreases |first|
  {
    if first == [] {
      assert first + second == second;
      assert [] + Fold(capacity, s, second).1 == Fold(capacity, s, second).1;
    } else {
      var (t, now) := One(capacity, s, first[0]);
      FoldConcat(capacity, t, first[1..], second);
      var (u, earlier) := Fold(capacity, t, first[1..]);
      var (v, later) := Fold(capacity, u, second);
      FoldFirst(capacity, s, first, t, now, u, earlier);
      assert (first + second)[0] == first[0] && (first + second)[1..] == first[1..] + second;
      FoldFirst(capacity, s, first + second, t, now, v, earlier + later);
      Reassociate(now, earlier, later);
    }
  }

  lemma {:induction false} Reassociate<T>(a: seq<T>, b: seq<T>, c: seq<T>)
    ensures a + (b + c) == (a + b) + c
  {
  }

  lemma {:induction false} FoldFirst(capacity: nat, s: State, polls: seq<Poll>, t: State, now: seq<SolanaEvent>,
                   u: State, later: seq<SolanaEvent>)
    requires polls != [] && One(capacity, s, polls[0]) == (t, now) && Fold(capacity, t, polls[1..]) == (u, later)
    ensures Fold(capacity, s, polls) == (u, now + later)
  {
  }

  lemma {:induction false} FoldSingle(capacity: nat, s: State, poll: Poll)
    ensures Fold(capacity, s, [poll]) == One(capacity, s, poll)
  {
    var (u, now) := One(capacity, s, poll);
    assert [poll][1..] == [] && now + [] == now;
  }

  // ---------------------------------------------------------------- what one call answers

  /** A poll that does not end a call by itself. */
  predicate Passes(p: Poll) { p.FilterSet? || (p.Received? && p.commits) }

  ghost predicate AllPass(polls: seq<Poll>) { forall i :: 0 <= i < |polls| ==> Passes(polls[i]) }

  /** The filter last set, or `filter` if none was. */
  function FilterAfter(filter: Option<Filter>, polls: seq<Poll>): Option<Filter> {
    if polls == [] then filter
    else if polls[|polls| - 1].FilterSet? then Some(polls[|polls| - 1].filter)
    else FilterAfter(filter, polls[..|polls| - 1])
  }

  /** `p` carries the event `e`, its signature is new, and the filter lets it through if there is one. */
  predicate NewAndWanted(seen: set<string>, filter: Option<Filter>, p: Poll, e: SolanaEvent) {
    && p.Received? && Parse(p.message) == Parsed(e)
    && e.signature !in seen
    && (filter.Some? ==> filter.value(e))
  }

  /** One poll delivers an event exactly when it is new, wanted, and committed. */
  lemma {:induction false} DeliversExactlyWhen(capacity: nat, s: State, p: Poll)
    ensures forall e :: One(capacity, s, p).1 == [e] <==> p.Received? && p.commits && NewAndWanted(s.seen, s.filter, p, e)
    ensures One(capacity, s, p).1 != [] ==> exists e :: One(capacity, s, p).1 == [e]
  {
    if One(capacity, s, p).1 != [] {
      assert One(capacity, s, p).1 == [One(capacity, s, p).1[0]];
    }
  }

  /** The state's filter is the one last set. */
  lemma {:induction false} FilterIsLastSet(capacity: nat, s: State, polls: seq<Poll>)
    ensures Fold(capacity, s, polls).0.filter == FilterAfter(s.filter, polls)
  {
    if polls != [] {
      var front, last := polls[..|polls| - 1], polls[|polls| - 1];
      assert polls == front + [last];
      FilterIsLastSet(capacity, s, front);
      FoldConcat(capacity, s, front, [last]);
      FoldSingle(capacity, Fold(capacity, s, front).0, last);
    }
  }

  /** What the poll `p`, met in state `u`, makes the call answer. */
  predicate AnswersPoll(outcome: Outcome, u: State, p: Poll) {
    && (outcome.NothingNow? <==> p.Throttled?)
    && (outcome.ReceiveError? <==> p.ReceiveFailed?)
    && (outcome.CommitError? <==> p.Received? && !p.commits)
    && (outcome.Delivered? <==> p.Received? && p.commits)
    && (outcome.Delivered? ==> NewAndWanted(u.seen, u.filter, p, outcome.event))
  }

  /**
   * A call stops at the first poll that throttles it, fails, or delivers, having delivered nothing before, and answers
   * by that poll; without such a poll it waits.
   */
  lemma {:induction false} NextAnswers(capacity: nat, s: State, polls: seq<Poll>)
    ensures var (t, outcome, rest) := Next(capacity, s, polls);
            var n := |polls| - |rest|;
            && rest == polls[n..] && t == Fold(capacity, s, polls[..n]).0
            && (outcome.Pending? ==> n == |polls| && AllPass(polls) && Fold(capacity, s, polls).1 == [])
            && (!outcome.Pending? ==>
                 && n > 0 && AllPass(polls[..n - 1]) && Fold(capacity, s, polls[..n - 1]).1 == []
                 && AnswersPoll(outcome, Fold(capacity, s, polls[..n - 1]).0, polls[n - 1]))
    decreases |polls|
  {
    if polls == [] {
      assert polls[..0] == [];
    } else if Passes(polls[0]) && One(capacity, s, polls[0]).1 == [] {
      NextAnswersLater(capacity, s, polls);
    } else {
      var (t, outcome, rest) := Next(capacity, s, polls);
      assert polls[..0] == [] && polls[..1] == [polls[0]];
      FoldSingle(capacity, s, polls[0]);
    }
  }

  lemma {:induction false} NextAnswersLater(capacity: nat, s: State, polls: seq<Poll>)
    requires polls != [] && Passes(polls[0]) && One(capacity, s, polls[0]).1 == []
    ensures var (t, outcome, rest) := Next(capacity, s, polls);
            var n := |polls| - |rest|;
            && rest == polls[n..] && t == Fold(capacity, s, polls[..n]).0
            && (outcome.Pending? ==> n == |polls| && AllPass(polls) && Fold(capacity, s, polls).1 == [])
            && (!outcome.Pending? ==>
                 && n > 0 && AllPass(polls[..n - 1]) && Fold(capacity, s, polls[..n - 1]).1 == []
                 && AnswersPoll(outcome, Fold(capacity, s, polls[..n - 1]).0, polls[n - 1]))
    decreases |polls|, 0
  {
    var u, later := One(capacity, s, polls[0]).0, polls[1..];
    NextAnswers(capacity, u, later);
    var (t, outcome, rest) := Next(capacity, u, later);
    assert Next(capacity, s, polls) == (t, outcome, rest);
    var n := |polls| - |rest|;
    PassedOver(capacity, s, polls, n);
    if !outcome.Pending? {
      PassedOver(capacity, s, polls, n - 1);
    }
  }

  /** A passing first poll that delivers nothing only changes the state. */
  lemma {:induction false} PassedOver(capacity: nat, s: State, polls: seq<Poll>, n: nat)
    requires 1 <= n <= |polls| && Passes(polls[0]) && One(capacity, s, polls[0]).1 == []
    ensures Fold(capacity, s, polls[..n]) == Fold(capacity, One(capacity, s, polls[0]).0, polls[1..][..n - 1])
    ensures AllPass(polls[1..][..n - 1]) ==> AllPass(polls[..n])
    ensures polls[1..][n - 1..] == polls[n..]
  {
    var (u, later) := Fold(capacity, One(capacity, s, polls[0]).0, polls[1..][..n - 1]);
    assert polls[..n][1..] == polls[1..][..n - 1];
    assert [] + later == later;
    forall i | AllPass(polls[1..][..n - 1]) && 0 <= i < n ensures Passes(polls[..n][i]) {
      if i > 0 {
        assert polls[..n][i] == polls[1..][..n - 1][i - 1];
      }
    }
  }

  /** It waits exactly when no poll stops it. */
  lemma {:induction false} WaitsExactlyWhen(capacity: nat, s: State, polls: seq<Poll>)
    ensures Next(capacity, s, polls).1.Pending? <==> AllPass(polls) && Drive(capacity, s, polls).1 == []
  {
    NextAnswers(capacity, s, polls);
    DriveIsFold(capacity, s, polls);
    var (t, outcome, rest) := Next(capacity, s, polls);
    var n := |polls| - |rest|;
    if outcome.Delivered? {
      assert polls == polls[..n] + polls[n..];
      FoldConcat(capacity, s, polls[..n], polls[n..]);
      NextIsFold(capacity, s, polls);
    } else if !outcome.Pending? {
      assert !Passes(polls[n - 1]);
    }
  }

  // ---------------------------------------------------------------- commits

  function CommitsOf(arrivals: seq<Arrival>): seq<Commit> {
    if arrivals == [] then [] else [Commit(arrivals[0].message, arrivals[0].commits)] + CommitsOf(arrivals[1..])
  }

  /** No commit fails. */
  predicate CommitsSucceed(polls: seq<Poll>) {
    forall i :: 0 <= i < |polls| && polls[i].Received? ==> polls[i].commits
  }

  /**
   * For every received message exactly one commit is attempted, in the order of receipt and by whatever path it leaves
   * the loop; and every one of them succeeds when no commit of the stream fails.
   */
  lemma {:induction false} EveryMessageCommittedOnce(capacity: nat, s: State, polls: seq<Poll>)
    ensures var arrivals := Arrivals(s.filter, polls);
            && Drive(capacity, s, polls).0.commits == s.commits + CommitsOf(arrivals)
            && Committed(CommitsOf(arrivals)) == MessagesOf(arrivals)
            && (CommitsSucceed(polls) ==> forall i :: 0 <= i < |CommitsOf(arrivals)| ==> CommitsOf(arrivals)[i].ok)
  {
    DriveIsFold(capacity, s, polls);
    FoldCommits(capacity, s, polls);
    CommitsAreReceipts(Arrivals(s.filter, polls));
    if CommitsSucceed(polls) {
      ArrivalsCommit(s.filter, polls);
    }
  }

  lemma {:induction false} FoldCommits(capacity: nat, s: State, polls: seq<Poll>)
    ensures Fold(capacity, s, polls).0.commits == s.commits + CommitsOf(Arrivals(s.filter, polls))
    decreases |polls|
  {
    if polls != [] {
      FoldCommits(capacity, One(capacity, s, polls[0]).0, polls[1..]);
      if polls[0].Received? {
        var rest := Arrivals(s.filter, polls[1..]);
        var first := Arrival(polls[0].message, s.filter, polls[0].commits);
        assert ([first] + rest)[1..] == rest;
      }
    }
  }

  lemma {:induction false} CommitsAreReceipts(arrivals: seq<Arrival>)
    ensures Committed(CommitsOf(arrivals)) == MessagesOf(arrivals)
  {
    if arrivals != [] {
      CommitsAreReceipts(arrivals[1..]);
    }
  }

  lemma {:induction false} ArrivalsCommit(filter: Option<Filter>, polls: seq<Poll>)
    requires CommitsSucceed(polls)
    ensures forall i :: 0 <= i < |CommitsOf(Arrivals(filter, polls))| ==> CommitsOf(Arrivals(filter, polls))[i].ok
    decreases |polls|
  {
    if polls != [] {
      var next := if polls[0].FilterSet? then Some(polls[0].filter) else filter;
      ArrivalsCommit(next, polls[1..]);
      if polls[0].Received? {
        var rest := Arrivals(filter, polls[1..]);
        assert ([Arrival(polls[0].message, filter, polls[0].commits)] + rest)[1..] == rest;
      }
    }
  }

  /** The new events that the filter in force lets through, whether or not their commits succeed. */
  function Wanted(capacity: nat, s: State, polls: seq<Poll>): seq<Item> {
    FilterStage(DedupStage(capacity, s.seen, ParseStage(Arrivals(s.filter, polls))).1)
  }

  /** The consumer delivers every new event the filter wants exactly when each of them is committed successfully. */
  lemma {:induction false} LosslessExactlyWhen(capacity: nat, s: State, polls: seq<Poll>)
    ensures var wanted := Wanted(capacity, s, polls);
            Drive(capacity, s, polls).1 == EventsOf(wanted) <==> forall i :: 0 <= i < |wanted| ==> wanted[i].commits
  {
    var wanted := Wanted(capacity, s, polls);
    ConsumerRefinesPipeline(capacity, s, polls);
    CommitStageKeeps(wanted);
    EventCount(wanted);
    EventCount(CommitStage(wanted));
  }

  lemma {:induction false} EventCount(items: seq<Item>)
    ensures |EventsOf(items)| == |items|
  {
    if items != [] {
      EventCount(items[1..]);
    }
  }

  lemma {:induction false} CommitStageKeeps(items: seq<Item>)
    ensures |CommitStage(items)| <= |items|
    ensures |CommitStage(items)| == |items| <==> forall i :: 0 <= i < |items| ==> items[i].commits
    ensures |CommitStage(items)| == |items| ==> CommitStage(items) == items
  {
    if items != [] {
      CommitStageKeeps(items[1..]);
      assert forall i :: 1 <= i < |items| ==> items[i] == items[1..][i - 1];
    }
  }
}

/** What becomes of an event whose commit failed, when Kafka delivers its message again. */
module Redelivery {
  import opened Arithmetic
  import opened Events
  import opened Messages
  import opened Consumer
  import opened ConsumerPipeline
  import opened Epochs

  /** The items since the seen-set was last cleared, from the one that cleared it; none if it never was. */
  function SinceClear(capacity: nat, seen: set<string>, items: seq<Item>): Option<seq<Item>>
    decreases |items|
  {
    if items == [] then None
    else
      var signature := items[0].event.signature;
      match SinceClear(capacity, Remember(capacity, seen, signature).0, items[1..])
      case Some(recent) => Some(recent)
      case None => if signature !in seen && |seen + {signature}| > capacity then Some(items) else None
  }

  lemma {:induction false} SignaturesFirst(items: seq<Item>)
    requires items != []
    ensures Signatures(items) == {items[0].event.signature} + Signatures(items[1..])
  {
    assert items == items[..1] + items[1..];
    SignaturesConcat(items[..1], items[1..]);
    SignaturesOne(items[..1]);
  }

  /** The seen-set is what it was and what has come by, or what has come by since the last clear. */
  lemma {:induction false} SeenSinceClear(capacity: nat, seen: set<string>, items: seq<Item>)
    ensures DedupStage(capacity, seen, items).0 ==
            match SinceClear(capacity, seen, items)
            case None => seen + Signatures(items)
            case Some(recent) => Signatures(recent)
    decreases |items|
  {
    if items != [] {
      SignaturesFirst(items);
      SeenSinceClear(capacity, Remember(capacity, seen, items[0].event.signature).0, items[1..]);
    }
  }

  /** Nothing is cleared exactly while everything fits. */
  lemma {:induction false} NoClearExactlyWhen(capacity: nat, seen: set<string>, items: seq<Item>)
    requires |seen| <= capacity
    ensures SinceClear(capacity, seen, items) == None <==> |seen + Signatures(items)| <= capacity
    decreases |items|
  {
    if items == [] {
      assert seen + {} == seen;
    } else {
      var signature := items[0].event.signature;
      SignaturesFirst(items);
      var grown := seen + {signature};
      assert grown + Signatures(items[1..]) == seen + Signatures(items);
      SubsetSize(grown, seen + Signatures(items));
      if |grown| <= capacity {
        assert signature in seen ==> grown == seen;
        NoClearExactlyWhen(capacity, grown, items[1..]);
      } else {
        assert signature in seen ==> grown == seen;
      }
    }
  }

  /** Is the signature still in the set that `items` leave behind? */
  predicate Remembered(capacity: nat, seen: set<string>, items: seq<Item>, signature: string) {
    match SinceClear(capacity, seen, items)
    case None => signature in seen || signature in Signatures(items)
    case Some(recent) => signature in Signatures(recent)
  }

  lemma {:induction false} RecentIsPart(capacity: nat, seen: set<string>, items: seq<Item>)
    ensures SinceClear(capacity, seen, items).Some? ==>
              Signatures(SinceClear(capacity, seen, items).value) <= Signatures(items)
    decreases |items|
  {
    if items != [] {
      SignaturesFirst(items);
      RecentIsPart(capacity, Remember(capacity, seen, items[0].event.signature).0, items[1..]);
    }
  }

  /** What the polls between the failed commit and the redelivery amount to. */
  function Between(s: State, between: seq<Poll>): seq<Item> { ParseStage(Arrivals(s.filter, between)) }

  /** The message comes, its commit fails, `between` happens, and the message comes again. */
  function Redelivered(m: Message, between: seq<Poll>): seq<Poll> { [Received(m, false)] + between + [Received(m, true)] }

  /** The failed delivery yields nothing, and the second one what the state it meets makes of it. */
  lemma {:induction false} TwoDeliveries(capacity: nat, s: State, m: Message, between: seq<Poll>)
    ensures var t := One(capacity, s, Received(m, false)).0;
            var (u, meanwhile) := Fold(capacity, t, between);
            Drive(capacity, s, Redelivered(m, between)).1 == meanwhile + One(capacity, u, Received(m, true)).1
  {
    var t := One(capacity, s, Received(m, false)).0;
    var (u, meanwhile) := Fold(capacity, t, between);
    DriveIsFold(capacity, s, Redelivered(m, between));
    FoldConcat(capacity, s, [Received(m, false)] + between, [Received(m, true)]);
    FoldConcat(capacity, s, [Received(m, false)], between);
    FoldSingle(capacity, s, Received(m, false));
    FoldSingle(capacity, u, Received(m, true));
    assert [] + meanwhile == meanwhile;
  }

  /**
   * A redelivery, after anything whatever, is dropped as a duplicate exactly when the seen-set still holds the signature:
   * it has not been cleared since the failed commit, or the signature has come by again since.
   */
  lemma {:induction false} DroppedExactlyWhenRemembered(capacity: nat, s: State, m: Message, between: seq<Poll>)
    requires Parse(m).Parsed?
    ensures var event, t := Parse(m).event, One(capacity, s, Received(m, false)).0;
            var (u, meanwhile) := Fold(capacity, t, between);
            Drive(capacity, s, Redelivered(m, between)).1 ==
            meanwhile
            + if Remembered(capacity, t.seen, Between(s, between), event.signature) || !Matches(u.filter, event) then []
              else [event]
  {
    var t := One(capacity, s, Received(m, false)).0;
    TwoDeliveries(capacity, s, m, between);
    FoldIsPipeline(capacity, t, between);
    SeenSinceClear(capacity, t.seen, Between(s, between));
  }

  /** If the signature does not come by in between, it is forgotten exactly when an epoch ends in between. */
  lemma {:induction false} RememberedExactlyWhen(capacity: nat, s: State, m: Message, between: seq<Poll>)
    requires Parse(m).Parsed? && capacity >= 1 && |s.seen| <= capacity
    requires Parse(m).event.signature !in Signatures(Between(s, between))
    ensures var t := One(capacity, s, Received(m, false)).0;
            Remembered(capacity, t.seen, Between(s, between), Parse(m).event.signature) <==>
            |t.seen + Signatures(Between(s, between))| <= capacity
  {
    var t, items := One(capacity, s, Received(m, false)).0, Between(s, between);
    RecentIsPart(capacity, t.seen, items);
    NoClearExactlyWhen(capacity, t.seen, items);
  }

  /** With a good commit the same message would have been delivered at once, if it is new and the filter wants it. */
  lemma {:induction false} GoodCommitDelivers(capacity: nat, s: State, m: Message)
    requires Parse(m).Parsed? && Parse(m).event.signature !in s.seen && Matches(s.filter, Parse(m).event)
    ensures Drive(capacity, s, [Received(m, true)]).1 == [Parse(m).event]
  {
    DriveIsFold(capacity, s, [Received(m, true)]);
    FoldSingle(capacity, s, Received(m, true));
  }

  /** An immediate redelivery is always dropped. */
  lemma {:induction false} FailedCommitLosesEvent(capacity: nat, s: State, m: Message)
    requires Parse(m).Parsed?
    ensures Drive(capacity, s, [Received(m, false), Received(m, true)]).1 == []
  {
    DroppedExactlyWhenRemembered(capacity, s, m, []);
    assert Redelivered(m, []) == [Received(m, false), Received(m, true)];
  }
}

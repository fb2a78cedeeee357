/** What clearing the seen-set on overflow amounts to: greedy epochs of the parsed stream. */
module Epochs {
  import opened Arithmetic
  import opened Events
  import opened Sequences
  import opened Consumer
  import opened ConsumerPipeline

  function Signatures(items: seq<Item>): set<string> {
    if items == [] then {} else Signatures(items[..|items| - 1]) + {items[|items| - 1].event.signature}
  }

  /** The longest prefix with at most `capacity` distinct signatures. */
  function Cut(items: seq<Item>, capacity: nat): (k: nat)
    ensures k <= |items|
  {
    if |Signatures(items)| <= capacity then |items|
    else assert items != []; Cut(items[..|items| - 1], capacity)
  }

  /** The stream cut greedily into epochs. */
  function EpochsOf(items: seq<Item>, capacity: nat): seq<seq<Item>>
    requires capacity >= 1
    decreases |items|
  {
    if items == [] then []
    else
      CutPositive(items, capacity);
      var k := Cut(items, capacity);
      [items[..k]] + EpochsOf(items[k..], capacity)
  }

  /** The items whose signature has not occurred before, given that those of `earlier` have. */
  function FirstsAfter(earlier: set<string>, items: seq<Item>): seq<Item>
    decreases |items|
  {
    if items == [] then []
    else (if items[0].event.signature in earlier then [] else [items[0]])
         + FirstsAfter(earlier + {items[0].event.signature}, items[1..])
  }

  function EpochFirsts(epochs: seq<seq<Item>>): seq<Item> {
    if epochs == [] then [] else FirstsAfter({}, epochs[0]) + EpochFirsts(epochs[1..])
  }

  // ---------------------------------------------------------------- cuts

  lemma {:induction false} SignaturesOne(items: seq<Item>)
    requires |items| == 1
    ensures Signatures(items) == {items[0].event.signature}
  {
    assert items[..0] == [] && Signatures(items[..0]) == {};
  }

  lemma {:induction false} SignaturesConcat(a: seq<Item>, b: seq<Item>)
    ensures Signatures(a + b) == Signatures(a) + Signatures(b)
  {
    if b == [] {
      assert a + b == a;
    } else {
      SignaturesConcat(a, b[..|b| - 1]);
      assert (a + b)[..|a + b| - 1] == a + b[..|b| - 1];
    }
  }

  lemma {:induction false} CutPositive(items: seq<Item>, capacity: nat)
    requires items != [] && capacity >= 1
    ensures Cut(items, capacity) >= 1
    decreases |items|
  {
    if |items| == 1 {
      SignaturesOne(items);
    } else if |Signatures(items)| > capacity {
      CutPositive(items[..|items| - 1], capacity);
    }
  }

  /** The cut is where it says: its prefix fits, and one item more would not, with exactly `capacity` signatures before it. */
  lemma {:induction false} CutIsGreedy(items: seq<Item>, capacity: nat)
    requires capacity >= 1
    ensures var k := Cut(items, capacity);
            && |Signatures(items[..k])| <= capacity
            && (k < |items| ==> |Signatures(items[..k + 1])| > capacity && |Signatures(items[..k])| == capacity)
            && (k < |items| ==> items[k].event.signature !in Signatures(items[..k]))
    decreases |items|
  {
    if |Signatures(items)| <= capacity {
      assert items[..|items|] == items;
    } else {
      var before := items[..|items| - 1];
      CutIsGreedy(before, capacity);
      var k := Cut(before, capacity);
      assert items[..k] == before[..k];
      if k < |before| {
        assert items[..k + 1] == before[..k + 1];
      } else {
        assert items[..k + 1] == items && before[..k] == before;
      }
    }
  }

  // ---------------------------------------------------------------- the seen-set within an epoch

  /** While everything fits, the stage keeps first occurrences and the set is what has been seen. */
  lemma {:induction false} WithinEpoch(capacity: nat, seen: set<string>, items: seq<Item>)
    requires |seen + Signatures(items)| <= capacity
    ensures DedupStage(capacity, seen, items) == (seen + Signatures(items), FirstsAfter(seen, items))
    decreases |items|
  {
    if items == [] {
      assert seen + {} == seen;
    } else {
      var sig := items[0].event.signature;
      assert items == items[..1] + items[1..];
      SignaturesConcat(items[..1], items[1..]);
      SignaturesOne(items[..1]);
      var grown := seen + {sig};
      assert grown + Signatures(items[1..]) == seen + Signatures(items);
      SubsetSize(grown, seen + Signatures(items));
      assert sig in seen ==> grown == seen;
      WithinEpoch(capacity, grown, items[1..]);
    }
  }

  lemma {:induction false} DedupConcat(capacity: nat, seen: set<string>, a: seq<Item>, b: seq<Item>)
    ensures var (mid, first) := DedupStage(capacity, seen, a);
            var (final, second) := DedupStage(capacity, mid, b);
            DedupStage(capacity, seen, a + b) == (final, first + second)
    decreases |a|
  {
    if a == [] {
      assert a + b == b;
      assert [] + DedupStage(capacity, seen, b).1 == DedupStage(capacity, seen, b).1;
    } else {
      var (grown, isNew) := Remember(capacity, seen, a[0].event.signature);
      DedupConcat(capacity, grown, a[1..], b);
      assert (a + b)[1..] == a[1..] + b;
      var (mid, first) := DedupStage(capacity, grown, a[1..]);
      var second := DedupStage(capacity, mid, b).1;
      var head := if isNew then [a[0]] else [];
      assert head + (first + second) == (head + first) + second;
    }
  }

  /** The seen-set after the stream: the signatures of the last epoch. */
  function LastSignatures(epochs: seq<seq<Item>>): set<string> {
    if epochs == [] then {} else Signatures(epochs[|epochs| - 1])
  }

  /** Deduplication with clearing keeps exactly the first occurrences within each greedy epoch. */
  lemma {:induction false} DedupIsEpochwise(capacity: nat, items: seq<Item>)
    requires capacity >= 1
    ensures var (seen, kept) := DedupStage(capacity, {}, items);
            && kept == EpochFirsts(EpochsOf(items, capacity))
            && seen == LastSignatures(EpochsOf(items, capacity))
    decreases |items|
  {
    if items != [] {
      CutPositive(items, capacity);
      CutIsGreedy(items, capacity);
      var k := Cut(items, capacity);
      var epoch, rest := items[..k], items[k..];
      assert items == epoch + rest;
      assert {} + Signatures(epoch) == Signatures(epoch);
      WithinEpoch(capacity, {}, epoch);
      DedupConcat(capacity, {}, epoch, rest);
      DedupIsEpochwise(capacity, rest);
      if rest != [] {
        CutPositive(rest, capacity);
      } else {
        assert EpochsOf(items, capacity) == [epoch];
      }
      assert ([epoch] + EpochsOf(rest, capacity))[1..] == EpochsOf(rest, capacity);
    }
  }

  /** Each epoch but the last has exactly `capacity` distinct signatures, the last at most that. */
  ghost predicate Full(epochs: seq<seq<Item>>, capacity: nat) {
    && (forall i :: 0 <= i < |epochs| - 1 ==> |Signatures(epochs[i])| == capacity)
    && (epochs != [] ==> |Signatures(epochs[|epochs| - 1])| <= capacity)
  }

  lemma {:induction false} FullInFront(epoch: seq<Item>, rest: seq<seq<Item>>, capacity: nat)
    requires Full(rest, capacity)
    requires |Signatures(epoch)| == capacity || (rest == [] && |Signatures(epoch)| <= capacity)
    ensures Full([epoch] + rest, capacity)
  {
    var es := [epoch] + rest;
    forall i | 0 <= i < |es| - 1 ensures |Signatures(es[i])| == capacity {
      if i > 0 {
        assert es[i] == rest[i - 1];
      }
    }
  }

  /** The epochs are a partition of the stream, and all of them but the last are full. */
  lemma {:induction false} EpochSizes(capacity: nat, items: seq<Item>)
    requires capacity >= 1
    ensures Flat(EpochsOf(items, capacity)) == items && Full(EpochsOf(items, capacity), capacity)
    decreases |items|
  {
    if items != [] {
      CutPositive(items, capacity);
      CutIsGreedy(items, capacity);
      var k := Cut(items, capacity);
      var epoch, rest := items[..k], EpochsOf(items[k..], capacity);
      EpochSizes(capacity, items[k..]);
      FlatCons(epoch, rest);
      assert items == epoch + items[k..];
      FullInFront(epoch, rest, capacity);
    }
  }

  /** At no point of any run does the seen-set hold more than `capacity` signatures. */
  lemma {:induction false} SeenBounded(capacity: nat, s: State, polls: seq<Poll>)
    requires capacity >= 1 && |s.seen| <= capacity
    ensures |Fold(capacity, s, polls).0.seen| <= capacity
    decreases |polls|
  {
    if polls != [] {
      SeenBounded(capacity, One(capacity, s, polls[0]).0, polls[1..]);
    }
  }

  /** No signature is kept twice within one epoch. */
  lemma {:induction false} FirstsAreDistinct(earlier: set<string>, items: seq<Item>)
    ensures forall i :: 0 <= i < |FirstsAfter(earlier, items)| ==> FirstsAfter(earlier, items)[i].event.signature !in earlier
    ensures forall i, j :: 0 <= i < j < |FirstsAfter(earlier, items)| ==>
              FirstsAfter(earlier, items)[i].event.signature != FirstsAfter(earlier, items)[j].event.signature
    decreases |items|
  {
    if items != [] {
      var sig := items[0].event.signature;
      var later := FirstsAfter(earlier + {sig}, items[1..]);
      FirstsAreDistinct(earlier + {sig}, items[1..]);
      var head: seq<Item> := if sig in earlier then [] else [items[0]];
      assert FirstsAfter(earlier, items) == head + later;
      forall i, j | 0 <= i < j < |head + later|
        ensures (head + later)[i].event.signature != (head + later)[j].event.signature
      {
        assert (head + later)[j] == later[j - |head|];
      }
    }
  }

  /** From a fresh consumer, what is delivered, in terms of epochs alone. */
  lemma {:induction false} DeliveredByEpoch(capacity: nat, polls: seq<Poll>)
    requires capacity >= 1
    ensures Drive(capacity, FRESH, polls).1 ==
            EventsOf(CommitStage(FilterStage(EpochFirsts(EpochsOf(ParseStage(Arrivals(None, polls)), capacity)))))
  {
    ConsumerRefinesPipeline(capacity, FRESH, polls);
    DedupIsEpochwise(capacity, ParseStage(Arrivals(None, polls)));
  }
}

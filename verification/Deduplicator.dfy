/** The time-window deduplicator over an explicit LRU cache, against its whole call history. */
module Deduplicator {
  import opened Arithmetic
  import opened Events
  import opened Words

  datatype Entry = Entry(signature: string, seenAt: nat)

  // ---------------------------------------------------------------- recency lists

  ghost predicate HasKey(entries: seq<Entry>, key: string) { exists i :: 0 <= i < |entries| && entries[i].signature == key }

  ghost predicate DistinctKeys(entries: seq<Entry>) {
    forall i, j :: 0 <= i < j < |entries| ==> entries[i].signature != entries[j].signature
  }

  /** Where `key` is, or the length if it is nowhere. */
  function Position(entries: seq<Entry>, key: string): (i: nat)
    ensures i <= |entries|
    ensures i < |entries| ==> entries[i].signature == key
    ensures forall j :: 0 <= j < i ==> entries[j].signature != key
  {
    if |entries| == 0 then 0 else if entries[0].signature == key then 0 else 1 + Position(entries[1..], key)
  }

  function Without(entries: seq<Entry>, key: string): seq<Entry> {
    var i := Position(entries, key);
    if i < |entries| then entries[..i] + entries[i + 1..] else entries
  }

  function Take(entries: seq<Entry>, n: nat): seq<Entry> { if |entries| <= n then entries else entries[..n] }

  // ---------------------------------------------------------------- the cache

  /** A least-recently-used cache: `entries` is ordered from the most to the least recently used. */
  class LruCache {
    const capacity: nat
    var entries: seq<Entry>

    ghost predicate Valid()
      reads this
    {
      1 <= capacity && |entries| <= capacity && DistinctKeys(entries)
    }

    constructor (capacity: nat)
      requires capacity >= 1
      ensures this.capacity == capacity && entries == [] && Valid()
    {
      this.capacity, entries := capacity, [];
    }

    method Find(key: string) returns (i: nat)
      ensures i == Position(entries, key)
    {
      i := 0;
      while i < |entries| && entries[i].signature != key
        invariant i <= |entries|
        invariant forall j :: 0 <= j < i ==> entries[j].signature != key
      {
        i := i + 1;
      }
    }

    /** `get_mut`: a hit becomes the most recently used entry. */
    method GetMut(key: string) returns (seenAt: Option<nat>)
      requires Valid()
      modifies this
      ensures Valid()
      ensures var i := Position(old(entries), key);
              if i < |old(entries)|
              then seenAt == Some(old(entries)[i].seenAt) && entries == [old(entries)[i]] + Without(old(entries), key)
              else seenAt == None && entries == old(entries)
    {
      var i := Find(key);
      if i == |entries| {
        return None;
      }
      seenAt := Some(entries[i].seenAt);
      entries := [entries[i]] + (entries[..i] + entries[i + 1..]);
    }

    /** Writing through the reference `get_mut` handed out. */
    method SetFront(seenAt: nat)
      requires Valid() && |entries| > 0
      modifies this
      ensures Valid()
      ensures entries == [old(entries)[0].(seenAt := seenAt)] + old(entries)[1..]
    {
      entries := [entries[0].(seenAt := seenAt)] + entries[1..];
    }

    /** `put`: the key becomes the most recently used; a new key in a full cache drops the least recently used. */
    method Put(key: string, seenAt: nat)
      requires Valid()
      modifies this
      ensures Valid()
      ensures entries == Take([Entry(key, seenAt)] + Without(old(entries), key), capacity)
    {
      var i := Find(key);
      if i < |entries| {
        entries := [Entry(key, seenAt)] + (entries[..i] + entries[i + 1..]);
      } else if |entries| == capacity {
        entries := [Entry(key, seenAt)] + entries[..capacity - 1];
      } else {
        entries := [Entry(key, seenAt)] + entries;
      }
    }
  }

  /** The capacity a `max_size` of 0 falls back to. */
  const DEFAULT_CAPACITY: nat := 10000

  /** Never 0: every other size is used as given. */
  function Capacity(maxSize: nat): (c: nat)
    ensures c > 0 && (maxSize > 0 ==> c == maxSize) && (maxSize == 0 ==> c == 10000)
  {
    if maxSize == 0 then DEFAULT_CAPACITY else maxSize
  }

  /** One call of `should_process` on a recency list. */
  function Process(entries: seq<Entry>, capacity: nat, window: nat, key: string, now: nat): (seq<Entry>, bool) {
    var i := Position(entries, key);
    (Take([Entry(key, now)] + Without(entries, key), capacity),
     !(i < |entries| && Elapsed(entries[i].seenAt, now) < window))
  }

  class MessageDeduplicator {
    const cache: LruCache
    const timeWindow: nat

    ghost predicate Valid()
      reads this, cache
    {
      cache.Valid()
    }

    constructor (maxSize: nat, timeWindow: nat)
      ensures Valid() && fresh(cache)
      ensures this.timeWindow == timeWindow && cache.capacity == Capacity(maxSize) && cache.entries == []
    {
      cache := new LruCache(if maxSize == 0 then DEFAULT_CAPACITY else maxSize);
      this.timeWindow := timeWindow;
    }

    method ShouldProcess(signature: string, now: nat) returns (isNew: bool)
      requires Valid()
      modifies cache
      ensures Valid()
      ensures (cache.entries, isNew) == Process(old(cache.entries), cache.capacity, timeWindow, signature, now)
    {
      ghost var before := cache.entries;
      var seenAt := cache.GetMut(signature);
      if seenAt.Some? && Elapsed(seenAt.value, now) < timeWindow {
        cache.SetFront(now);
        assert cache.entries == [Entry(signature, now)] + Without(before, signature);
        return false;
      }
      ghost var promoted := cache.entries;
      cache.Put(signature, now);
      if seenAt.Some? {
        WithoutFront(promoted, Without(before, signature), signature);
      }
      isNew := true;
    }
  }

  lemma {:induction false} WithoutFront(entries: seq<Entry>, rest: seq<Entry>, key: string)
    requires entries != [] && entries[0].signature == key && entries[1..] == rest
    ensures Without(entries, key) == rest
  {
    assert Position(entries, key) == 0;
  }

  // ---------------------------------------------------------------- the history

  datatype Call = Call(signature: string, at: nat)

  /** Every signature passed so far with the time of its last call, most recently passed first. */
  function Recent(h: seq<Call>): seq<Entry> {
    if |h| == 0 then []
    else
      var last := h[|h| - 1];
      [Entry(last.signature, last.at)] + Without(Recent(h[..|h| - 1]), last.signature)
  }

  function Replay(h: seq<Call>, capacity: nat, window: nat): seq<Entry> {
    if |h| == 0 then []
    else Process(Replay(h[..|h| - 1], capacity, window), capacity, window, h[|h| - 1].signature, h[|h| - 1].at).0
  }

  lemma {:induction false} PositionUnique(entries: seq<Entry>, key: string, i: nat)
    requires DistinctKeys(entries) && i < |entries| && entries[i].signature == key
    ensures Position(entries, key) == i
  {
  }

  lemma {:induction false} WithoutKey(entries: seq<Entry>, key: string)
    requires DistinctKeys(entries)
    ensures DistinctKeys(Without(entries, key)) && !HasKey(Without(entries, key), key)
  {
  }

  lemma {:induction false} RecentDistinct(h: seq<Call>)
    ensures DistinctKeys(Recent(h))
  {
    if |h| > 0 {
      RecentDistinct(h[..|h| - 1]);
      WithoutKey(Recent(h[..|h| - 1]), h[|h| - 1].signature);
    }
  }

  lemma {:induction false} CutAfterRemoval<T>(all: seq<T>, i: nat, n: nat, front: T)
    requires i < n < |all|
    ensures ([front] + (all[..i] + all[i + 1..]))[..n] == [front] + (all[..i] + all[i + 1..n])
  {
  }

  lemma {:induction false} CutBeforeRemoval<T>(all: seq<T>, i: nat, n: nat, front: T)
    requires 1 <= n <= i < |all|
    ensures ([front] + (all[..i] + all[i + 1..]))[..n] == [front] + all[..n - 1]
  {
  }

  lemma {:induction false} PositionInPrefix(all: seq<Entry>, key: string, n: nat)
    requires n <= |all| && DistinctKeys(all)
    ensures Position(all[..n], key) == if Position(all, key) < n then Position(all, key) else n
  {
    var i := Position(all, key);
    if i < n {
      PositionUnique(all[..n], key, i);
    }
  }

  /** Removing a key and cutting the list to the capacity commute once the key is put in front. */
  lemma {:induction false} TakeWithout(all: seq<Entry>, capacity: nat, key: string, front: Entry)
    requires capacity >= 1 && DistinctKeys(all)
    ensures Take([front] + Without(Take(all, capacity), key), capacity) == Take([front] + Without(all, key), capacity)
  {
    if |all| > capacity {
      PositionInPrefix(all, key, capacity);
      if Position(all, key) < capacity {
        var i := Position(all, key);
        CutAfterRemoval(all, i, capacity, front);
        assert all[..capacity][..i] == all[..i] && all[..capacity][i + 1..] == all[i + 1..capacity];
      } else {
        TakeWithoutLater(all, capacity, key, front);
      }
    }
  }

  /** The key is not among the entries kept. */
  lemma {:induction false} TakeWithoutLater(all: seq<Entry>, capacity: nat, key: string, front: Entry)
    requires 1 <= capacity < |all| && capacity <= Position(all, key) && Position(all[..capacity], key) == capacity
    ensures Take([front] + Without(Take(all, capacity), key), capacity) == [front] + all[..capacity - 1]
    ensures Take([front] + Without(all, key), capacity) == [front] + all[..capacity - 1]
  {
    var i := Position(all, key);
    assert ([front] + all[..capacity])[..capacity] == [front] + all[..capacity - 1];
    if i < |all| {
      CutBeforeRemoval(all, i, capacity, front);
    } else {
      assert ([front] + all)[..capacity] == [front] + all[..capacity - 1];
    }
  }

  /** The cache is the `capacity` most recently passed distinct signatures, in recency order, each with its last time. */
  lemma {:induction false} CacheMatchesHistory(h: seq<Call>, capacity: nat, window: nat)
    requires capacity >= 1
    ensures Replay(h, capacity, window) == Take(Recent(h), capacity)
  {
    if |h| > 0 {
      var before, last := h[..|h| - 1], h[|h| - 1];
      CacheMatchesHistory(before, capacity, window);
      RecentDistinct(before);
      TakeWithout(Recent(before), capacity, last.signature, Entry(last.signature, last.at));
    }
  }

  // ---------------------------------------------------------------- recency in terms of calls

  /** `i` is the last call that passed `key`. */
  ghost predicate LastCall(h: seq<Call>, key: string, i: nat) {
    i < |h| && h[i].signature == key && forall j :: i < j < |h| ==> h[j].signature != key
  }

  function Signatures(h: seq<Call>): set<string> { set i | 0 <= i < |h| :: h[i].signature }

  function Keys(entries: seq<Entry>): set<string> { set i | 0 <= i < |entries| :: entries[i].signature }

  lemma {:induction false} KeyCount(entries: seq<Entry>)
    requires DistinctKeys(entries)
    ensures |Keys(entries)| == |entries|
  {
    if |entries| > 0 {
      var rest := entries[..|entries| - 1];
      KeyCount(rest);
      assert Keys(entries) == Keys(rest) + {entries[|entries| - 1].signature};
    }
  }

  lemma {:induction false} KeysConcat(a: seq<Entry>, b: seq<Entry>)
    ensures Keys(a + b) == Keys(a) + Keys(b)
  {
    forall k ensures k in Keys(a + b) <==> k in Keys(a) + Keys(b) {
      if k in Keys(a) {
        var i :| 0 <= i < |a| && a[i].signature == k;
        assert (a + b)[i].signature == k;
      }
      if k in Keys(b) {
        var i :| 0 <= i < |b| && b[i].signature == k;
        assert (a + b)[|a| + i].signature == k;
      }
    }
  }

  lemma {:induction false} SignaturesAppend(h: seq<Call>, last: Call)
    ensures Signatures(h + [last]) == Signatures(h) + {last.signature}
  {
    forall k ensures k in Signatures(h + [last]) <==> k in Signatures(h) + {last.signature} {
      if k in Signatures(h) {
        var i :| 0 <= i < |h| && h[i].signature == k;
        assert (h + [last])[i].signature == k;
      }
      if k == last.signature {
        assert (h + [last])[|h|].signature == k;
      }
    }
  }

  /** Where the entry at `p` goes when `key` moves to the front. */
  function Shifted(entries: seq<Entry>, key: string, p: nat): nat {
    if Position(entries, key) < p then p else p + 1
  }

  lemma {:induction false} SingleKey(e: Entry)
    ensures Keys([e]) == {e.signature}
  {
    assert [e][0].signature == e.signature;
  }

  /** `key` was in front of `p`: nothing new gets in front of it. */
  lemma {:induction false} MoveFromFront(entries: seq<Entry>, q: nat, p: nat, front: Entry)
    requires q < p < |entries| && front.signature == entries[q].signature
    ensures var moved := [front] + (entries[..q] + entries[q + 1..]);
            moved[p] == entries[p] && Keys(moved[..p]) == Keys(entries[..p])
  {
    CutAfterRemoval(entries, q, p, front);
    KeysConcat([front], entries[..q] + entries[q + 1..p]);
    KeysConcat(entries[..q], entries[q + 1..p]);
    assert entries[..p] == entries[..q] + ([entries[q]] + entries[q + 1..p]);
    KeysConcat(entries[..q], [entries[q]] + entries[q + 1..p]);
    KeysConcat([entries[q]], entries[q + 1..p]);
    SingleKey(front);
    SingleKey(entries[q]);
  }

  /** `key` was behind `p`, or nowhere: it gets in front. */
  lemma {:induction false} MoveFromBehind(entries: seq<Entry>, rest: seq<Entry>, p: nat, front: Entry)
    requires p < |entries| && p < |rest| && rest[..p + 1] == entries[..p + 1]
    ensures ([front] + rest)[p + 1] == entries[p]
    ensures Keys(([front] + rest)[..p + 1]) == Keys(entries[..p]) + {front.signature}
  {
    assert rest[p] == rest[..p + 1][p] == entries[..p + 1][p];
    assert rest[..p] == rest[..p + 1][..p] == entries[..p + 1][..p] == entries[..p];
    assert ([front] + rest)[..p + 1] == [front] + rest[..p];
    KeysConcat([front], entries[..p]);
    SingleKey(front);
  }

  lemma {:induction false} MoveToFront(entries: seq<Entry>, key: string, p: nat, front: Entry)
    requires DistinctKeys(entries) && p < |entries| && entries[p].signature != key && front.signature == key
    ensures var moved := [front] + Without(entries, key);
            && Shifted(entries, key, p) < |moved|
            && moved[Shifted(entries, key, p)] == entries[p]
            && Keys(moved[..Shifted(entries, key, p)]) == Keys(entries[..p]) + (if Position(entries, key) < p then {} else {key})
            && (Position(entries, key) < p ==> key in Keys(entries[..p]))
  {
    var q := Position(entries, key);
    if q < p {
      MoveFromFront(entries, q, p, front);
      assert entries[..p][q].signature == key;
    } else {
      MoveFromBehind(entries, Without(entries, key), p, front);
    }
  }

  /** `key` sits in the list with its last time, and in front of it are exactly the signatures `since`. */
  ghost predicate Ranked(entries: seq<Entry>, key: string, at: nat, since: set<string>) {
    var p := Position(entries, key);
    p < |entries| && entries[p] == Entry(key, at) && Keys(entries[..p]) == since
  }

  lemma {:induction false} RankedAfterCall(entries: seq<Entry>, key: string, at: nat, since: set<string>, last: Call)
    requires DistinctKeys(entries) && Ranked(entries, key, at, since) && last.signature != key
    ensures Ranked([Entry(last.signature, last.at)] + Without(entries, last.signature), key, at, since + {last.signature})
  {
    var p := Position(entries, key);
    var moved := [Entry(last.signature, last.at)] + Without(entries, last.signature);
    WithoutKey(entries, last.signature);
    MoveToFront(entries, last.signature, p, moved[0]);
    PositionUnique(moved, key, Shifted(entries, last.signature, p));
  }

  lemma {:induction false} RankedInRecent(h: seq<Call>, key: string, at: nat, since: set<string>)
    requires |h| > 0 && h[|h| - 1].signature != key && Ranked(Recent(h[..|h| - 1]), key, at, since)
    ensures Ranked(Recent(h), key, at, since + {h[|h| - 1].signature})
  {
    RecentDistinct(h[..|h| - 1]);
    RankedAfterCall(Recent(h[..|h| - 1]), key, at, since, h[|h| - 1]);
  }

  /** In front of a signature in the recency list are exactly the other signatures passed since its last call. */
  lemma {:induction false} RecentPosition(h: seq<Call>, key: string, i: nat)
    requires LastCall(h, key, i)
    ensures Ranked(Recent(h), key, h[i].at, Signatures(h[i + 1..]))
  {
    if i == |h| - 1 {
      RankedFirst(h, key);
    } else {
      RecentPosition(h[..|h| - 1], key, i);
      SinceGrows(h, i);
      RankedInRecent(h, key, h[i].at, Signatures(h[..|h| - 1][i + 1..]));
    }
  }

  lemma {:induction false} RankedFirst(h: seq<Call>, key: string)
    requires |h| > 0 && h[|h| - 1].signature == key
    ensures Ranked(Recent(h), key, h[|h| - 1].at, Signatures(h[|h|..]))
  {
    RecentDistinct(h);
    PositionUnique(Recent(h), key, 0);
    assert h[|h|..] == [];
  }

  lemma {:induction false} SinceGrows(h: seq<Call>, i: nat)
    requires i < |h| - 1
    ensures Signatures(h[i + 1..]) == Signatures(h[..|h| - 1][i + 1..]) + {h[|h| - 1].signature}
  {
    var before, last := h[..|h| - 1], h[|h| - 1];
    assert h[i + 1..] == before[i + 1..] + [last];
    SignaturesAppend(before[i + 1..], last);
  }

  lemma {:induction false} RecentRank(h: seq<Call>, key: string, i: nat)
    requires LastCall(h, key, i)
    ensures Position(Recent(h), key) == |Signatures(h[i + 1..])| < |Recent(h)|
  {
    RecentPosition(h, key, i);
    RecentDistinct(h);
    KeyCount(Recent(h)[..Position(Recent(h), key)]);
  }

  lemma {:induction false} StillMissing(entries: seq<Entry>, key: string, front: Entry)
    requires !HasKey(entries, key) && front.signature != key
    ensures !HasKey([front] + Without(entries, front.signature), key)
  {
  }

  lemma {:induction false} NeverCalled(h: seq<Call>, key: string)
    requires forall i :: 0 <= i < |h| ==> h[i].signature != key
    ensures !HasKey(Recent(h), key)
  {
    if |h| > 0 {
      NeverCalled(h[..|h| - 1], key);
      StillMissing(Recent(h[..|h| - 1]), key, Entry(h[|h| - 1].signature, h[|h| - 1].at));
    }
  }

  lemma {:induction false} FindLastCall(h: seq<Call>, key: string) returns (i: nat)
    requires exists j :: 0 <= j < |h| && h[j].signature == key
    ensures LastCall(h, key, i)
  {
    if h[|h| - 1].signature == key {
      i := |h| - 1;
    } else {
      i := FindLastCall(h[..|h| - 1], key);
    }
  }

  /** What `should_process` answers after history `h`. */
  function Answer(h: seq<Call>, capacity: nat, window: nat, key: string, now: nat): bool {
    Process(Replay(h, capacity, window), capacity, window, key, now).1
  }

  /**
   * A message is suppressed exactly when its signature was last passed less than one window ago and fewer than
   * `capacity` other signatures were passed since.
   */
  lemma {:induction false} SuppressedExactlyWhen(h: seq<Call>, capacity: nat, window: nat, key: string, now: nat)
    requires capacity >= 1
    ensures !Answer(h, capacity, window, key, now) <==> exists i: nat :: Suppresses(h, capacity, window, key, now, i)
  {
    if exists j :: 0 <= j < |h| && h[j].signature == key {
      var i := FindLastCall(h, key);
      SuppressedBy(h, capacity, window, key, now, i);
      assert forall k: nat :: LastCall(h, key, k) ==> k == i;
    } else {
      NeverSuppressed(h, capacity, window, key, now);
    }
  }

  ghost predicate Suppresses(h: seq<Call>, capacity: nat, window: nat, key: string, now: nat, i: nat) {
    LastCall(h, key, i) && Elapsed(h[i].at, now) < window && |Signatures(h[i + 1..])| < capacity
  }

  lemma {:induction false} SuppressedBy(h: seq<Call>, capacity: nat, window: nat, key: string, now: nat, i: nat)
    requires capacity >= 1 && LastCall(h, key, i)
    ensures !Answer(h, capacity, window, key, now) <==> Suppresses(h, capacity, window, key, now, i)
  {
    var all := Recent(h);
    CacheMatchesHistory(h, capacity, window);
    RecentDistinct(h);
    RecentPosition(h, key, i);
    RecentRank(h, key, i);
    PositionInPrefix(all, key, if |all| <= capacity then |all| else capacity);
    assert all[..|all|] == all;
  }

  lemma {:induction false} NeverSuppressed(h: seq<Call>, capacity: nat, window: nat, key: string, now: nat)
    requires capacity >= 1 && forall i :: 0 <= i < |h| ==> h[i].signature != key
    ensures Answer(h, capacity, window, key, now)
  {
    CacheMatchesHistory(h, capacity, window);
    NeverCalled(h, key);
  }

  /** A repeat inside the window that gets through costs at least `capacity` distinct other signatures. */
  lemma {:induction false} LossBound(h: seq<Call>, capacity: nat, window: nat, key: string, now: nat, i: nat)
    requires capacity >= 1 && i < |h| && h[i].signature == key && Elapsed(h[i].at, now) < window
    requires forall j, k :: 0 <= j <= k < |h| ==> h[j].at <= h[k].at
    requires Answer(h, capacity, window, key, now)
    ensures |Signatures(h[i + 1..]) - {key}| >= capacity
  {
    var last := FindLastCall(h, key);
    assert i <= last;
    SuppressedBy(h, capacity, window, key, now, last);
    assert |Signatures(h[last + 1..])| >= capacity;
    var since, since_last := Signatures(h[i + 1..]) - {key}, Signatures(h[last + 1..]);
    forall s | s in since_last ensures s in since {
      var j :| 0 <= j < |h[last + 1..]| && h[last + 1..][j].signature == s;
      assert h[i + 1..][last - i + j].signature == s;
    }
    SubsetSize(since_last, since);
  }
}

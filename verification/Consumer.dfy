/** The consumer's receive loop: gate, receive, parse, deduplicate, filter, commit. */
module Consumer {
  import opened Events
  import opened Messages

  type Filter = SolanaEvent -> bool

  const MINIMUM_CAPACITY: nat := 100_000

  /** The size at which the seen-set is cleared. */
  function Capacity(bufferSize: nat): (c: nat)
    ensures c >= bufferSize && c >= 100000 && (c == bufferSize || c == 100000)
  {
    if bufferSize > MINIMUM_CAPACITY then bufferSize else MINIMUM_CAPACITY
  }

  /** What happens around the loop: a gate that closes, a failed receive, a message, or another task's `set_filter`. */
  datatype Poll = Throttled | ReceiveFailed | Received(message: Message, commits: bool) | FilterSet(filter: Filter)

  datatype Outcome = Delivered(event: SolanaEvent) | NothingNow | ReceiveError | CommitError | Pending

  datatype Commit = Commit(message: Message, ok: bool)

  datatype State = State(
    seen: set<string>,
    filter: Option<Filter>,
    received: seq<Message>,
    commits: seq<Commit>)

  const FRESH: State := State({}, None, [], [])

  /** Insert; and when that makes the set larger than `capacity`, clear it and keep only the newcomer. */
  function Remember(capacity: nat, seen: set<string>, signature: string): (set<string>, bool) {
    if signature in seen then (seen, false)
    else
      var grown := seen + {signature};
      (if |grown| > capacity then {signature} else grown, true)
  }

  predicate Matches(filter: Option<Filter>, event: SolanaEvent) { filter.Some? ==> filter.value(event) }

  /** One message through parsing and deduplication: the new seen-set, and the event if there is a new one. */
  function Process(capacity: nat, seen: set<string>, m: Message): (set<string>, Option<SolanaEvent>) {
    match Parse(m)
    case Parsed(event) =>
      var (grown, isNew) := Remember(capacity, seen, event.signature);
      (grown, if isNew then Some(event) else None)
    case _ => (seen, None)
  }

  /** `next_event` on what the loop meets; returns the polls it did not reach. */
  function Next(capacity: nat, s: State, polls: seq<Poll>): (r: (State, Outcome, seq<Poll>))
    ensures r.1.Pending? ==> r.2 == []
    ensures !r.1.Pending? ==> |r.2| < |polls|
    decreases |polls|
  {
    if polls == [] then (s, Pending, [])
    else
      match polls[0]
      case Throttled => (s, NothingNow, polls[1..])
      case ReceiveFailed => (s, ReceiveError, polls[1..])
      case FilterSet(filter) => Next(capacity, s.(filter := Some(filter)), polls[1..])
      case Received(m, commits) =>
        var (seen, event) := Process(capacity, s.seen, m);
        var t := State(seen, s.filter, s.received + [m], s.commits + [Commit(m, commits)]);
        if !commits then (t, CommitError, polls[1..])
        else if event.Some? && Matches(s.filter, event.value) then (t, Delivered(event.value), polls[1..])
        else Next(capacity, t, polls[1..])
  }

  function Committed(commits: seq<Commit>): seq<Message> {
    seq(|commits|, i requires 0 <= i < |commits| => commits[i].message)
  }

  class StreamConsumer {
    const capacity: nat
    var seenSignatures: set<string>
    var activeEventFilter: Option<Filter>
    var received: seq<Message>
    var commits: seq<Commit>

    ghost function View(): State
      reads this
    {
      State(seenSignatures, activeEventFilter, received, commits)
    }

    /** Every message received so far has been committed, once, in order. */
    ghost predicate Settled()
      reads this
    {
      Committed(commits) == received
    }

    constructor (bufferSize: nat)
      ensures capacity == Capacity(bufferSize) && View() == FRESH && Settled()
    {
      capacity := Capacity(bufferSize);
      seenSignatures, activeEventFilter, received, commits := {}, None, [], [];
    }

    method SetFilter(filter: Filter)
      modifies this`activeEventFilter
      ensures View() == old(View()).(filter := Some(filter))
    {
      activeEventFilter := Some(filter);
    }

    method CommitKafkaOffset(m: Message, ok: bool)
      modifies this`commits
      ensures View() == old(View()).(commits := old(commits) + [Commit(m, ok)])
    {
      commits := commits + [Commit(m, ok)];
    }

    method ParseMessage(m: Message) returns (parsed: Parsed)
      ensures parsed == Parse(m)
    {
      if m.payload == None {
        return Malformed;
      }
      var body := m.payload.value;
      parsed := Malformed;
      if m.topic == TRANSACTIONS_TOPIC {
        if body.block.Some? {
          parsed := ParseContent(Transaction, body.block.value, Succeeded, (tx: BlockTransaction) => tx.signature);
        }
      } else if m.topic == TOKENS_TOPIC {
        if body.tokens.Some? {
          parsed := ParseContent(TokenTransfer, body.tokens.value, HasTransfer, (tx: TokenTransaction) => tx.signature);
        }
      } else if m.topic == DEX_TOPIC {
        if body.dex.Some? {
          parsed := ParseContent(DexTrade, body.dex.value, HasTrade, (tx: DexTransaction) => tx.signature);
        }
      } else {
        parsed := Unhandled;
      }
    }

    method InternalProcessKafkaMessage(m: Message) returns (event: Option<SolanaEvent>)
      modifies this`seenSignatures
      ensures (seenSignatures, event) == Process(capacity, old(seenSignatures), m)
    {
      var parsed := ParseMessage(m);
      if !parsed.Parsed? {
        return None;
      }
      var signature := parsed.event.signature;
      if signature in seenSignatures {
        return None;
      }
      seenSignatures := seenSignatures + {signature};
      if |seenSignatures| > capacity {
        seenSignatures := {};
        seenSignatures := seenSignatures + {signature};
      }
      event := Some(parsed.event);
    }

    method NextEvent(polls: seq<Poll>) returns (outcome: Outcome, rest: seq<Poll>)
      requires Settled()
      modifies this
      ensures Settled()
      ensures (View(), outcome, rest) == Next(capacity, old(View()), polls)
    {
      rest := polls;
      while rest != []
        invariant Settled()
        invariant Next(capacity, View(), rest) == Next(capacity, old(View()), polls)
        decreases |rest|
      {
        var poll := rest[0];
        rest := rest[1..];
        match poll {
          case Throttled => return NothingNow, rest;
          case ReceiveFailed => return ReceiveError, rest;
          case FilterSet(filter) => SetFilter(filter);
          case Received(m, ok) =>
            received := received + [m];
            var event := InternalProcessKafkaMessage(m);
            if event.Some? {
              var passes := activeEventFilter == None || activeEventFilter.value(event.value);
              CommitKafkaOffset(m, ok);
              if !ok {
                return CommitError, rest;
              }
              if passes {
                return Delivered(event.value), rest;
              }
            } else {
              CommitKafkaOffset(m, ok);
              if !ok {
                return CommitError, rest;
              }
            }
        }
      }
      outcome := Pending;
    }
  }
}

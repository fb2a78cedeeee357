/** Kafka messages and the one event each of them is reduced to. */
module Messages {
  import opened Events

  datatype BlockTransaction = BlockTransaction(signature: string, status: Option<bool>)
  datatype TokenTransaction = TokenTransaction(signature: string, transfers: nat)
  datatype DexTransaction = DexTransaction(signature: string, trades: nat)

  /** A decoded protobuf message: an optional header carrying the slot, and its transactions. */
  datatype Block<T> = Block(slot: Option<nat>, transactions: seq<T>)

  /** What decompressing and decoding the payload gives under each schema; `None` where decoding fails. */
  datatype Body = Body(
    block: Option<Block<BlockTransaction>>,
    tokens: Option<Block<TokenTransaction>>,
    dex: Option<Block<DexTransaction>>)

  datatype Message = Message(topic: string, offset: nat, payload: Option<Body>)

  /** The result of `internal_process_kafka_message` up to deduplication. */
  datatype Parsed = Parsed(event: SolanaEvent) | Unhandled | Malformed

  const TRANSACTIONS_TOPIC := "solana.transactions.proto"
  const TOKENS_TOPIC := "solana.tokens.proto"
  const DEX_TOPIC := "solana.dextrades.proto"

  predicate Succeeded(tx: BlockTransaction) { tx.status == Some(true) }

  predicate HasTransfer(tx: TokenTransaction) { tx.transfers > 0 }

  predicate HasTrade(tx: DexTransaction) { tx.trades > 0 }

  /** `i` is the first transaction of `txs` that qualifies. */
  ghost predicate IsFirst<T>(txs: seq<T>, qualifies: T -> bool, i: nat) {
    i < |txs| && qualifies(txs[i]) && forall j :: 0 <= j < i ==> !qualifies(txs[j])
  }

  ghost predicate NoneQualifies<T>(txs: seq<T>, qualifies: T -> bool) {
    forall j :: 0 <= j < |txs| ==> !qualifies(txs[j])
  }

  function FirstIndex<T>(txs: seq<T>, qualifies: T -> bool): (i: nat)
    ensures i < |txs| ==> IsFirst(txs, qualifies, i)
    ensures i >= |txs| ==> i == |txs| && NoneQualifies(txs, qualifies)
  {
    if |txs| == 0 then 0 else if qualifies(txs[0]) then 0 else 1 + FirstIndex(txs[1..], qualifies)
  }

  /** The event of a block: that of its first qualifying transaction, if it has a header and such a transaction. */
  function Select<T>(kind: EventKind, msg: Block<T>, qualifies: T -> bool, signature: T -> string): Parsed {
    var i := FirstIndex(msg.transactions, qualifies);
    if msg.slot.Some? && i < |msg.transactions|
    then Parsed(SolanaEvent(kind, msg.slot.value, signature(msg.transactions[i])))
    else Malformed
  }

  function Parse(m: Message): Parsed {
    match m.payload
    case None => Malformed
    case Some(body) =>
      if m.topic == TRANSACTIONS_TOPIC then
        if body.block == None then Malformed
        else Select(Transaction, body.block.value, Succeeded, (tx: BlockTransaction) => tx.signature)
      else if m.topic == TOKENS_TOPIC then
        if body.tokens == None then Malformed
        else Select(TokenTransfer, body.tokens.value, HasTransfer, (tx: TokenTransaction) => tx.signature)
      else if m.topic == DEX_TOPIC then
        if body.dex == None then Malformed
        else Select(DexTrade, body.dex.value, HasTrade, (tx: DexTransaction) => tx.signature)
      else Unhandled
  }

  /** `i` is the first element of which `qualifies` holds. */
  lemma {:induction false} FirstIndexIs<T>(txs: seq<T>, qualifies: T -> bool, i: nat)
    requires IsFirst(txs, qualifies, i)
    ensures FirstIndex(txs, qualifies) == i
  {
  }

  /** A block message becomes the event of its first transaction whose status says it succeeded. */
  lemma {:induction false} TransactionsTopic(m: Message)
    requires m.topic == "solana.transactions.proto"
    ensures Parse(m).Malformed? <==>
            || m.payload == None || m.payload.value.block == None || m.payload.value.block.value.slot == None
            || forall i :: 0 <= i < |m.payload.value.block.value.transactions| ==>
                 m.payload.value.block.value.transactions[i].status != Some(true)
    ensures forall i: nat | m.payload.Some? && m.payload.value.block.Some? && m.payload.value.block.value.slot.Some? ::
              var block := m.payload.value.block.value;
              i < |block.transactions| && block.transactions[i].status == Some(true)
              && (forall j :: 0 <= j < i ==> block.transactions[j].status != Some(true)) ==>
                Parse(m) == Parsed(SolanaEvent(Transaction, block.slot.value, block.transactions[i].signature))
  {
    if m.payload.Some? && m.payload.value.block.Some? {
      var txs := m.payload.value.block.value.transactions;
      forall i: nat | IsFirst(txs, Succeeded, i) ensures FirstIndex(txs, Succeeded) == i {
        FirstIndexIs(txs, Succeeded, i);
      }
    }
  }

  /** A token message becomes the event of its first transaction that has a transfer. */
  lemma {:induction false} TokensTopic(m: Message)
    requires m.topic == "solana.tokens.proto"
    ensures Parse(m).Malformed? <==>
            || m.payload == None || m.payload.value.tokens == None || m.payload.value.tokens.value.slot == None
            || forall i :: 0 <= i < |m.payload.value.tokens.value.transactions| ==>
                 m.payload.value.tokens.value.transactions[i].transfers == 0
    ensures forall i: nat | m.payload.Some? && m.payload.value.tokens.Some? && m.payload.value.tokens.value.slot.Some? ::
              var block := m.payload.value.tokens.value;
              i < |block.transactions| && block.transactions[i].transfers > 0
              && (forall j :: 0 <= j < i ==> block.transactions[j].transfers == 0) ==>
                Parse(m) == Parsed(SolanaEvent(TokenTransfer, block.slot.value, block.transactions[i].signature))
  {
    if m.payload.Some? && m.payload.value.tokens.Some? {
      var txs := m.payload.value.tokens.value.transactions;
      forall i: nat | IsFirst(txs, HasTransfer, i) ensures FirstIndex(txs, HasTransfer) == i {
        FirstIndexIs(txs, HasTransfer, i);
      }
    }
  }

  /** A DEX message becomes the event of its first transaction that has a trade. */
  lemma {:induction false} DexTopic(m: Message)
    requires m.topic == "solana.dextrades.proto"
    ensures Parse(m).Malformed? <==>
            || m.payload == None || m.payload.value.dex == None || m.payload.value.dex.value.slot == None
            || forall i :: 0 <= i < |m.payload.value.dex.value.transactions| ==>
                 m.payload.value.dex.value.transactions[i].trades == 0
    ensures forall i: nat | m.payload.Some? && m.payload.value.dex.Some? && m.payload.value.dex.value.slot.Some? ::
              var block := m.payload.value.dex.value;
              i < |block.transactions| && block.transactions[i].trades > 0
              && (forall j :: 0 <= j < i ==> block.transactions[j].trades == 0) ==>
                Parse(m) == Parsed(SolanaEvent(DexTrade, block.slot.value, block.transactions[i].signature))
  {
    if m.payload.Some? && m.payload.value.dex.Some? {
      var txs := m.payload.value.dex.value.transactions;
      forall i: nat | IsFirst(txs, HasTrade, i) ensures FirstIndex(txs, HasTrade) == i {
        FirstIndexIs(txs, HasTrade, i);
      }
    }
  }

  /** Only a message with a payload on none of the three topics is passed over as unhandled. */
  lemma {:induction false} UnhandledExactlyWhen(m: Message)
    ensures Parse(m).Unhandled? <==>
            && m.payload.Some?
            && m.topic != "solana.transactions.proto" && m.topic != "solana.tokens.proto" && m.topic != "solana.dextrades.proto"
  {
  }

  /** The loop the three `parse_*_content` functions share: return at the first transaction that qualifies. */
  method ParseContent<T>(kind: EventKind, msg: Block<T>, qualifies: T -> bool, signature: T -> string)
    returns (parsed: Parsed)
    ensures parsed.Malformed? <==> msg.slot == None || NoneQualifies(msg.transactions, qualifies)
    ensures parsed == Select(kind, msg, qualifies, signature)
  {
    if msg.slot.Some? {
      for i := 0 to |msg.transactions|
        invariant forall j :: 0 <= j < i ==> !qualifies(msg.transactions[j])
      {
        if qualifies(msg.transactions[i]) {
          return Parsed(SolanaEvent(kind, msg.slot.value, signature(msg.transactions[i])));
        }
      }
    }
    parsed := Malformed;
  }
}

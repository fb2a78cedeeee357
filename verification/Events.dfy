/** The event the SDK hands to applications, reduced to the parts its control flow looks at. */
module Events {
  datatype Option<+T> = None | Some(value: T)

  datatype EventKind = Transaction | TokenTransfer | DexTrade

  datatype SolanaEvent = SolanaEvent(kind: EventKind, slot: nat, signature: string)
}

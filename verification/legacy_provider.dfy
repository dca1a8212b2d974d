/** The older sendTransactionViaWallet (libs/provider.ts), which returns a
    bare transaction state instead of a TransactionInfo. */
module LegacyProvider {
  import opened Common
  import opened Provider

  /** A rejected send throws; no provider gives Failed; otherwise Sent
      exactly when a receipt arrives before any poll throws. */
  function LegacySendViaWallet(tx: TxOracle, providerPresent: bool): (r: Outcome<TxState>)
    ensures tx.reply.SendFails? ==> r == Raises(tx.reply.message)
    ensures tx.reply.Broadcast? && !providerPresent ==> r == Returns(Failed)
    ensures r.Returns? ==> r.value == Sent || r.value == Failed
    ensures r == Returns(Sent) <==> tx.reply.Broadcast? && providerPresent && ReceiptFirst(tx.polls)
    ensures tx.reply.Broadcast? && providerPresent && ErrorFirst(tx.polls) ==> r == Returns(Failed)
    ensures r.Polling? <==> tx.reply.Broadcast? && providerPresent && AllNull(tx.polls)
  {
    AwaitReceiptMeaning(tx.polls);
    match tx.reply
    case SendFails(m) => Raises(m)
    case Broadcast(_) =>
      if !providerPresent then Returns(Failed)
      else match AwaitReceipt(tx.polls)
        case Confirmed => Returns(Sent)
        case PollError => Returns(Failed)
        case StillWaiting => Polling
  }

  /** The state part of a TransactionInfo outcome. */
  function StateOf(r: Outcome<TxInfo>): Outcome<TxState> {
    match r
    case Returns(info) => Returns(info.state)
    case Raises(m) => Raises(m)
    case Polling => Polling
  }

  /** Both revisions classify every transaction the same way; the current
      one only adds the hash. */
  lemma LegacyAgreesWithCurrent(tx: TxOracle, providerPresent: bool)
    ensures LegacySendViaWallet(tx, providerPresent) == StateOf(SendViaWallet(tx, providerPresent))
  {
  }
}

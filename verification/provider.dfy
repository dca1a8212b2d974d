/** Sending a transaction through the wallet and classifying its outcome
    from the receipt polls (src/lib/provider.ts).  The endless polling loop
    is modelled over a finite list of poll responses: a list that runs out
    while every response was "no receipt yet" leaves the call Polling. */
module Provider {
  import opened Common

  /** The five transaction states; only Sent and Failed are ever produced. */
  datatype TxState = Failed | New | Rejected | Sending | Sent

  /** The TransactionInfo object: a state and, once broadcast, the hash. */
  datatype TxInfo = TxInfo(state: TxState, hash: Option<string>)

  /** One answer of provider.getTransactionReceipt. */
  datatype Poll = NoReceipt | Receipt | PollFails(message: string)

  /** The answer of wallet.sendTransaction: the broadcast hash, or a rejection. */
  datatype SendReply = Broadcast(hash: string) | SendFails(message: string)

  /** Everything the chain answers to one transaction. */
  datatype TxOracle = TxOracle(reply: SendReply, polls: seq<Poll>)

  /** How the polling loop ends. */
  datatype Verdict = Confirmed | PollError | StillWaiting

  /** Every poll before position i said "no receipt yet". */
  ghost predicate NullBefore(polls: seq<Poll>, i: int)
    requires 0 <= i <= |polls|
  {
    forall j | 0 <= j < i :: polls[j].NoReceipt?
  }

  /** A receipt arrives before any poll throws. */
  ghost predicate ReceiptFirst(polls: seq<Poll>) {
    exists i | 0 <= i < |polls| :: polls[i].Receipt? && NullBefore(polls, i)
  }

  /** A poll throws before any receipt arrives. */
  ghost predicate ErrorFirst(polls: seq<Poll>) {
    exists i | 0 <= i < |polls| :: polls[i].PollFails? && NullBefore(polls, i)
  }

  /** No poll ever produced a receipt or an error. */
  ghost predicate AllNull(polls: seq<Poll>) {
    NullBefore(polls, |polls|)
  }

  /** The loop `while (receipt === null)`: a null receipt polls again, a
      receipt ends the loop, a thrown poll breaks out of it. */
  function AwaitReceipt(polls: seq<Poll>): (v: Verdict)
    ensures v == StillWaiting ==> forall i | 0 <= i < |polls| :: polls[i].NoReceipt?
    ensures v == Confirmed ==> exists i | 0 <= i < |polls| :: polls[i].Receipt?
    ensures v == PollError ==> exists i | 0 <= i < |polls| :: polls[i].PollFails?
    decreases |polls|
  {
    if |polls| == 0 then StillWaiting
    else match polls[0]
      case NoReceipt => AwaitReceipt(polls[1..])
      case Receipt => Confirmed
      case PollFails(_) => PollError
  }

  /** A leading null response does not change which response comes first. */
  lemma ShiftReceiptFirst(polls: seq<Poll>)
    requires |polls| > 0 && polls[0].NoReceipt?
    ensures ReceiptFirst(polls) <==> ReceiptFirst(polls[1..])
  {
    var tail := polls[1..];
    if ReceiptFirst(tail) {
      var i :| 0 <= i < |tail| && tail[i].Receipt? && NullBefore(tail, i);
      assert polls[i + 1].Receipt? && NullBefore(polls, i + 1);
    }
    if ReceiptFirst(polls) {
      var i :| 0 <= i < |polls| && polls[i].Receipt? && NullBefore(polls, i);
      assert tail[i - 1].Receipt? && NullBefore(tail, i - 1);
    }
  }

  lemma ShiftErrorFirst(polls: seq<Poll>)
    requires |polls| > 0 && polls[0].NoReceipt?
    ensures ErrorFirst(polls) <==> ErrorFirst(polls[1..])
  {
    var tail := polls[1..];
    if ErrorFirst(tail) {
      var i :| 0 <= i < |tail| && tail[i].PollFails? && NullBefore(tail, i);
      assert polls[i + 1].PollFails? && NullBefore(polls, i + 1);
    }
    if ErrorFirst(polls) {
      var i :| 0 <= i < |polls| && polls[i].PollFails? && NullBefore(polls, i);
      assert tail[i - 1].PollFails? && NullBefore(tail, i - 1);
    }
  }

  lemma ShiftAllNull(polls: seq<Poll>)
    requires |polls| > 0 && polls[0].NoReceipt?
    ensures AllNull(polls) <==> AllNull(polls[1..])
  {
    var tail := polls[1..];
    if AllNull(tail) {
      forall j | 0 <= j < |polls| ensures polls[j].NoReceipt? {
        if j > 0 {
          assert polls[j] == tail[j - 1];
        }
      }
    }
  }

  /** The loop is confirmed exactly when a receipt comes first, fails exactly
      when an error comes first, and still waits exactly when every response
      was null. */
  lemma {:induction false} AwaitReceiptMeaning(polls: seq<Poll>)
    ensures AwaitReceipt(polls) == Confirmed <==> ReceiptFirst(polls)
    ensures AwaitReceipt(polls) == PollError <==> ErrorFirst(polls)
    ensures AwaitReceipt(polls) == StillWaiting <==> AllNull(polls)
    decreases |polls|
  {
    if |polls| > 0 {
      match polls[0]
      case NoReceipt =>
        AwaitReceiptMeaning(polls[1..]);
        ShiftReceiptFirst(polls);
        ShiftErrorFirst(polls);
        ShiftAllNull(polls);
      case Receipt =>
        assert NullBefore(polls, 0);
        assert !AllNull(polls);
      case PollFails(_) =>
        assert NullBefore(polls, 0);
        assert !AllNull(polls);
    }
  }

  /** The polling loop as the code runs it; `polled` counts the calls to
      getTransactionReceipt. */
  method PollForReceipt(polls: seq<Poll>) returns (v: Verdict, polled: nat)
    ensures v == AwaitReceipt(polls)
    ensures polled <= |polls|
    ensures v != StillWaiting ==> polled >= 1 && NullBefore(polls, polled - 1)
    ensures v == Confirmed ==> polls[polled - 1].Receipt?
    ensures v == PollError ==> polls[polled - 1].PollFails?
    ensures v == StillWaiting ==> polled == |polls|
  {
    polled := 0;
    v := StillWaiting;
    while polled < |polls|
      invariant polled <= |polls|
      invariant NullBefore(polls, polled)
      invariant AwaitReceipt(polls) == AwaitReceipt(polls[polled..])
      decreases |polls| - polled
    {
      var p := polls[polled];
      assert polls[polled..][1..] == polls[polled + 1..];
      polled := polled + 1;
      if p.Receipt? {
        v := Confirmed;
        return;
      } else if p.PollFails? {
        v := PollError;
        return;
      }
    }
  }

  /** sendTransaction / sendTransactionViaWallet: a rejected send throws; with
      no provider the result is Failed without a hash; otherwise the polls
      decide between Sent and Failed and the broadcast hash is recorded in
      both cases. */
  function SendViaWallet(tx: TxOracle, providerPresent: bool): (r: Outcome<TxInfo>)
    ensures tx.reply.SendFails? ==> r == Raises(tx.reply.message)
    ensures tx.reply.Broadcast? && !providerPresent ==> r == Returns(TxInfo(Failed, None))
    ensures r.Returns? ==> r.value.state == Sent || r.value.state == Failed
    ensures r.Returns? && r.value.state == Sent <==> tx.reply.Broadcast? && providerPresent && ReceiptFirst(tx.polls)
    ensures tx.reply.Broadcast? && providerPresent && ErrorFirst(tx.polls) ==> r == Returns(TxInfo(Failed, Some(tx.reply.hash)))
    ensures tx.reply.Broadcast? && providerPresent && r.Returns? ==> r.value.hash == Some(tx.reply.hash)
    ensures r.Polling? <==> tx.reply.Broadcast? && providerPresent && AllNull(tx.polls)
  {
    AwaitReceiptMeaning(tx.polls);
    match tx.reply
    case SendFails(m) => Raises(m)
    case Broadcast(h) =>
      if !providerPresent then Returns(TxInfo(Failed, None))
      else match AwaitReceipt(tx.polls)
        case Confirmed => Returns(TxInfo(Sent, Some(h)))
        case PollError => Returns(TxInfo(Failed, Some(h)))
        case StillWaiting => Polling
  }
}

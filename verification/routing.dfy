/** Route generation, token approval and swap execution of the current
    revision (src/lib/routing.ts).  The routing service, the allowance read,
    the approve transaction and the swap transaction are oracle inputs; what
    the code hands to them is recorded as effects. */
module Routing {
  import opened Common
  import opened Domain
  import opened Amounts
  import opened Provider

  /** Slippage tolerance: 50 / 10000, i.e. 0.5 %. */
  const SlippageNumerator: nat := 50
  const SlippageDenominator: nat := 10000

  /** Seconds from now until the swap deadline. */
  const DeadlineWindow: int := 1800

  /** The default approval size, used when the trade amount is 0 or absent. */
  const DefaultApproval: real := 500.0

  const NoWalletMessage := "Cannot execute a trade without a connected wallet"

  /** The swap options: fixed slippage and Math.floor(Date.now() / 1000 + 1800). */
  function RouteOptions(nowMs: int): (o: SwapOptions)
    ensures o.slippageNumerator == SlippageNumerator && o.slippageDenominator == SlippageDenominator
    ensures 1000 * (o.deadline - DeadlineWindow) <= nowMs < 1000 * (o.deadline - DeadlineWindow + 1)
  {
    var x := nowMs as real / 1000.0 + DeadlineWindow as real;
    var k := x.Floor;
    assert k as real <= x < k as real + 1.0;
    SwapOptions(SlippageNumerator, SlippageDenominator, k)
  }

  /** What the routing service does with a request. */
  datatype RouterReply = Found(route: Route) | NoRoute | RouterFails(message: string)

  /** The request generateRoute sends for `amountIn` of `tokenIn`: one when
      the amount converts to raw units, none when the conversion throws. */
  function RouteRequests(tokenIn: Token, tokenOut: Token, amountIn: real, nowMs: int): (rs: seq<RouteRequest>)
    ensures |rs| == if FromReadableAmount(amountIn, tokenIn.decimals).Converted? then 1 else 0
    ensures forall q | q in rs ::
      q.tokenIn == tokenIn && q.tokenOut == tokenOut && q.amountIn == amountIn &&
      q.rawAmountIn == FromReadableAmount(amountIn, tokenIn.decimals).raw && q.options == RouteOptions(nowMs)
  {
    match FromReadableAmount(amountIn, tokenIn.decimals)
    case Converted(raw) => [RouteRequest(tokenIn, tokenOut, amountIn, raw, RouteOptions(nowMs))]
    case Throws(_) => []
  }

  /** generateRoute comes back with a route: the amount converts and the
      router finds one. */
  predicate Routed(tokenIn: Token, amountIn: real, reply: RouterReply) {
    FromReadableAmount(amountIn, tokenIn.decimals).Converted? && reply.Found?
  }

  /** What generateRoute's catch block tracks, if it runs: the conversion's
      exception, which comes before the router is asked, or the router's. */
  function RouteError(tokenIn: Token, amountIn: real, reply: RouterReply): Option<string> {
    match FromReadableAmount(amountIn, tokenIn.decimals)
    case Throws(m) => Some(m)
    case Converted(_) => if reply.RouterFails? then Some(reply.message) else None
  }

  /** generateRoute: convert the amount and send one request to the router;
      a route, null when there is none, or null plus one GEN_ROUTE entry when
      the conversion or the router throws.  It never throws itself. */
  function GenerateRoute<L>(tokenIn: Token, tokenOut: Token, amountIn: real, env: Env, reply: RouterReply): (s: Step<Option<Route>, L>)
    ensures s.out.Returns?
    ensures s.out.value.Some? <==> Routed(tokenIn, amountIn, reply)
    ensures Routed(tokenIn, amountIn, reply) ==> s.out.value == Some(reply.route)
    ensures s.effects.requests == RouteRequests(tokenIn, tokenOut, amountIn, env.nowMs)
    ensures s.effects.errors ==
      if RouteError(tokenIn, amountIn, reply).Some?
      then [ErrorReport(GenRoute, RouteError(tokenIn, amountIn, reply).value, env.chain, None)] else []
    ensures s.effects.txs == [] && s.effects.alerts == [] && s.effects.logs == []
    ensures s.effects.trades == [] && s.effects.orders == []
  {
    match FromReadableAmount(amountIn, tokenIn.decimals)
    case Throws(m) => Step(Returns(None), Tracked(ErrorReport(GenRoute, m, env.chain, None)))
    case Converted(raw) =>
      var requested := Requested<L>(RouteRequest(tokenIn, tokenOut, amountIn, raw, RouteOptions(env.nowMs)));
      var caught: Trace<L> :=
        if reply.RouterFails? then Tracked(ErrorReport(GenRoute, reply.message, env.chain, None)) else Quiet();
      Step(Returns(if reply.Found? then Some(reply.route) else None), Then(requested, caught))
  }

  /** The size an approval must cover: `tradeAmount || 500`. */
  function TradeSize(tradeAmount: real): (size: real)
    ensures tradeAmount != 0.0 ==> size == tradeAmount
    ensures tradeAmount == 0.0 ==> size == DefaultApproval
  {
    if tradeAmount == 0.0 then DefaultApproval else tradeAmount
  }

  /** What the chain answers to an approval: the current allowance, whether
      building the approve transaction throws, and the transaction itself. */
  datatype ApprovalOracle = ApprovalOracle(allowance: Reading, populateFails: Option<string>, tx: TxOracle)

  /** The allowance already covers the trade size. */
  predicate Covered(token: Token, tradeAmount: real, o: ApprovalOracle) {
    o.allowance.Read? && AllowanceCovers(o.allowance.raw, token.decimals, TradeSize(tradeAmount))
  }

  /** The raw amount an approve asks for: the trade size converted with
      fromReadableAmount, which may throw. */
  function ApprovalAmount(token: Token, tradeAmount: real): Conversion {
    FromReadableAmount(TradeSize(tradeAmount), token.decimals)
  }

  /** An approve transaction is handed to the wallet. */
  predicate ApproveSent(token: Token, tradeAmount: real, env: Env, o: ApprovalOracle) {
    env.providerPresent && o.allowance.Read? && !Covered(token, tradeAmount, o) &&
    ApprovalAmount(token, tradeAmount).Converted? && o.populateFails.None?
  }

  /** The approval comes back Sent: the allowance is enough, or the approve
      transaction is confirmed. */
  ghost predicate ApprovalGranted(token: Token, tradeAmount: real, env: Env, o: ApprovalOracle) {
    env.providerPresent && o.allowance.Read? &&
    (Covered(token, tradeAmount, o) ||
     (ApprovalAmount(token, tradeAmount).Converted? && o.populateFails.None? &&
      o.tx.reply.Broadcast? && ReceiptFirst(o.tx.polls)))
  }

  /** The reason getTokenTransferApproval's catch records, if it runs: the
      allowance read, then the conversion of the size (an argument, so it is
      evaluated before the approve is built), then the build. */
  function ApprovalError(token: Token, tradeAmount: real, o: ApprovalOracle): Option<string> {
    match o.allowance
    case ReadFails(m) => Some(m)
    case Read(_) =>
      match ApprovalAmount(token, tradeAmount)
      case Throws(m) => Some(m)
      case Converted(_) => o.populateFails
  }

  /** getTokenTransferApproval.  The `return sendTransaction(...)` inside its
      try is not awaited, so a rejected approve escapes the catch: it tracks
      nothing and propagates to the caller. */
  function GetTokenTransferApproval<L>(token: Token, tradeAmount: real, env: Env, o: ApprovalOracle): (s: Step<TxInfo, L>)
    ensures !env.providerPresent ==> s == Step(Returns(TxInfo(Failed, None)), Quiet())
    ensures env.providerPresent && Covered(token, tradeAmount, o) ==> s == Step(Returns(TxInfo(Sent, None)), Quiet())
    ensures s.out.Returns? && s.out.value.state == Sent <==> ApprovalGranted(token, tradeAmount, env, o)
    ensures s.out.Returns? ==> s.out.value.state == Sent || s.out.value.state == Failed
    ensures s.effects.txs ==
      if ApproveSent(token, tradeAmount, env, o)
      then [Approve(token, ApprovalAmount(token, tradeAmount).raw)]
      else []
    ensures s.effects.errors ==
      if env.providerPresent && !Covered(token, tradeAmount, o) && ApprovalError(token, tradeAmount, o).Some?
      then [ErrorReport(TokenApproval, ApprovalError(token, tradeAmount, o).value, env.chain, None)]
      else []
    ensures s.out.Raises? <==> ApproveSent(token, tradeAmount, env, o) && o.tx.reply.SendFails?
    ensures s.out.Polling? <==> ApproveSent(token, tradeAmount, env, o) && o.tx.reply.Broadcast? && AllNull(o.tx.polls)
    ensures s.effects.requests == [] && s.effects.alerts == [] && s.effects.logs == []
    ensures s.effects.trades == [] && s.effects.orders == []
  {
    var failed := TxInfo(Failed, None);
    if !env.providerPresent then Step(Returns(failed), Quiet())
    else
      var size := TradeSize(tradeAmount);
      match o.allowance
      case ReadFails(m) => Step(Returns(failed), Tracked(ErrorReport(TokenApproval, m, env.chain, None)))
      case Read(raw) =>
        if AllowanceCovers(raw, token.decimals, size) then Step(Returns(TxInfo(Sent, None)), Quiet())
        else match ApprovalAmount(token, tradeAmount)
          case Throws(m) => Step(Returns(failed), Tracked(ErrorReport(TokenApproval, m, env.chain, None)))
          case Converted(amount) =>
            match o.populateFails
            case Some(m) => Step(Returns(failed), Tracked(ErrorReport(TokenApproval, m, env.chain, None)))
            case None => Step(SendViaWallet(o.tx, env.providerPresent), Submitted(Approve(token, amount)))
  }

  /** The try block of executeRoute: hand the swap to the wallet; a rejected
      send is caught, tracked as EXEC_ROUTE and leaves Failed without a hash. */
  function SubmitSwap<L>(route: Route, env: Env, swap: TxOracle): (s: Step<TxInfo, L>)
    requires env.providerPresent
    ensures s.effects.txs == [Swap(route)]
    ensures s.effects.errors == if swap.reply.SendFails? then [ErrorReport(ExecRoute, swap.reply.message, env.chain, None)] else []
    ensures s.effects.requests == [] && s.effects.alerts == [] && s.effects.logs == []
    ensures s.effects.trades == [] && s.effects.orders == []
    ensures swap.reply.SendFails? ==> s.out == Returns(TxInfo(Failed, None))
    ensures !s.out.Raises?
    ensures s.out.Returns? && s.out.value.state == Sent <==> swap.reply.Broadcast? && ReceiptFirst(swap.polls)
    ensures s.out.Returns? ==> s.out.value.state == Sent || s.out.value.state == Failed
    ensures s.out.Returns? && s.out.value.hash.Some? ==> swap.reply.Broadcast? && s.out.value.hash == Some(swap.reply.hash)
  {
    var submitted := Submitted<L>(Swap(route));
    match swap.reply
    case SendFails(m) =>
      Step(Returns(TxInfo(Failed, None)), Then(submitted, Tracked(ErrorReport(ExecRoute, m, env.chain, None))))
    case Broadcast(_) => Step(SendViaWallet(swap, env.providerPresent), submitted)
  }

  /** executeRoute: refuse without a wallet; get the approval; submit the
      swap only when the approval came back Sent. */
  function ExecuteRoute<L>(route: Route, tokenIn: Token, tradeAmount: real, env: Env, approval: ApprovalOracle, swap: TxOracle): (s: Step<TxInfo, L>)
    ensures !env.providerPresent ==> s == Step(Raises(NoWalletMessage), Quiet())
    ensures s.effects.txs ==
      GetTokenTransferApproval<L>(tokenIn, tradeAmount, env, approval).effects.txs +
      (if ApprovalGranted(tokenIn, tradeAmount, env, approval) then [Swap(route)] else [])
    ensures s.out.Returns? && s.out.value.state == Sent <==>
      ApprovalGranted(tokenIn, tradeAmount, env, approval) && swap.reply.Broadcast? && ReceiptFirst(swap.polls)
    ensures s.out.Returns? ==> s.out.value.state == Sent || s.out.value.state == Failed
    ensures s.out.Returns? && s.out.value.hash.Some? ==>
      ApprovalGranted(tokenIn, tradeAmount, env, approval) && swap.reply.Broadcast? && s.out.value.hash == Some(swap.reply.hash)
    ensures env.providerPresent && !ApprovalGranted(tokenIn, tradeAmount, env, approval) && s.out.Returns? ==>
      s.out.value == TxInfo(Failed, None)
    ensures s.out.Raises? <==> !env.providerPresent || (ApproveSent(tokenIn, tradeAmount, env, approval) && approval.tx.reply.SendFails?)
    ensures s.out.Polling? <==>
      env.providerPresent && (
        (ApproveSent(tokenIn, tradeAmount, env, approval) && approval.tx.reply.Broadcast? && AllNull(approval.tx.polls)) ||
        (ApprovalGranted(tokenIn, tradeAmount, env, approval) && swap.reply.Broadcast? && AllNull(swap.polls)))
    ensures s.effects.errors ==
      GetTokenTransferApproval<L>(tokenIn, tradeAmount, env, approval).effects.errors +
      (if ApprovalGranted(tokenIn, tradeAmount, env, approval) && swap.reply.SendFails?
       then [ErrorReport(ExecRoute, swap.reply.message, env.chain, None)] else [])
    ensures s.effects.requests == [] && s.effects.alerts == [] && s.effects.logs == []
    ensures s.effects.trades == [] && s.effects.orders == []
  {
    if !env.providerPresent then Step(Raises(NoWalletMessage), Quiet())
    else
      var a := GetTokenTransferApproval<L>(tokenIn, tradeAmount, env, approval);
      match a.out
      case Raises(m) => Step(Raises(m), a.effects)
      case Polling => Step(Polling, a.effects)
      case Returns(info) =>
        if info.state != Sent then Step(Returns(TxInfo(Failed, None)), a.effects)
        else
          var sub := SubmitSwap<L>(route, env, swap);
          Step(sub.out, Then(a.effects, sub.effects))
  }
}

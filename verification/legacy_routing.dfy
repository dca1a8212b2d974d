/** Route generation, approval and swap execution of the older revision
    (libs/routing.ts).  Unlike the current revision it has no error log:
    route generation has no catch, approval never looks at the allowance and
    always asks for the fixed amount, and executeRoute returns a bare state. */
module LegacyRouting {
  import opened Common
  import opened Domain
  import opened Amounts
  import opened Provider
  import opened LegacyProvider
  import opened LegacyUtils
  import opened Routing

  /** TOKEN_AMOUNT_TO_APPROVE_FOR_TRANSFER of libs/constants.ts. */
  const LegacyApprovalAmount: nat := 2000

  /** generateRoute of the older revision: convert the amount with parseUnits
      (which may throw before anything is asked), send one request, and let a
      router exception propagate. */
  function LegacyGenerateRoute(tokenIn: Token, tokenOut: Token, amountIn: real, env: Env, reply: RouterReply): (s: Step<Option<Route>, LegacyLog>)
    ensures s.effects.requests ==
      if LegacyFromReadableAmount(amountIn, tokenIn.decimals).Throws? then []
      else [RouteRequest(tokenIn, tokenOut, amountIn, LegacyFromReadableAmount(amountIn, tokenIn.decimals).raw, RouteOptions(env.nowMs))]
    ensures s.out.Raises? <==> LegacyFromReadableAmount(amountIn, tokenIn.decimals).Throws? || reply.RouterFails?
    ensures LegacyFromReadableAmount(amountIn, tokenIn.decimals).Throws? ==>
      s.out == Raises(LegacyFromReadableAmount(amountIn, tokenIn.decimals).message)
    ensures LegacyFromReadableAmount(amountIn, tokenIn.decimals).Converted? && reply.RouterFails? ==> s.out == Raises(reply.message)
    ensures !s.out.Polling?
    ensures s.out.Returns? ==> (s.out.value.Some? <==> reply.Found?)
    ensures s.out.Returns? && reply.Found? ==> s.out.value == Some(reply.route)
    ensures s.effects.errors == [] && s.effects.txs == [] && s.effects.alerts == []
    ensures s.effects.logs == [] && s.effects.trades == [] && s.effects.orders == []
  {
    match LegacyFromReadableAmount(amountIn, tokenIn.decimals)
    case Throws(m) => Step(Raises(m), Quiet())
    case Converted(raw) =>
      var requested := Requested<LegacyLog>(RouteRequest(tokenIn, tokenOut, amountIn, raw, RouteOptions(env.nowMs)));
      match reply
      case Found(route) => Step(Returns(Some(route)), requested)
      case NoRoute => Step(Returns(None), requested)
      case RouterFails(m) => Step(Raises(m), requested)
  }

  /** Where the amount converts exactly and the router does not throw, both
      revisions send the same request and return the same route (traced
      against the older revision's position log), as long as toFixed accepts
      the token's decimals; beyond that only the older one asks the router. */
  lemma GenerateRouteAgrees(tokenIn: Token, tokenOut: Token, amountIn: real, env: Env, reply: RouterReply)
    requires LegacyFromReadableAmount(amountIn, tokenIn.decimals).Converted? && !reply.RouterFails?
    ensures tokenIn.decimals <= MaxFixedDigits ==>
      LegacyGenerateRoute(tokenIn, tokenOut, amountIn, env, reply) == GenerateRoute<LegacyLog>(tokenIn, tokenOut, amountIn, env, reply)
    ensures tokenIn.decimals > MaxFixedDigits ==>
      GenerateRoute<LegacyLog>(tokenIn, tokenOut, amountIn, env, reply).effects.requests == [] &&
      |LegacyGenerateRoute(tokenIn, tokenOut, amountIn, env, reply).effects.requests| == 1
  {
    LegacyAgreesWhenExact(amountIn, tokenIn.decimals);
    var raw := LegacyFromReadableAmount(amountIn, tokenIn.decimals).raw;
    ThenQuiet(Requested<LegacyLog>(RouteRequest(tokenIn, tokenOut, amountIn, raw, RouteOptions(env.nowMs))));
  }

  /** What the chain answers to an approval of the older revision: whether
      building the approve transaction throws, and the transaction itself. */
  datatype LegacyApprovalOracle = LegacyApprovalOracle(populateFails: Option<string>, tx: TxOracle)

  /** An approve transaction is handed to the wallet. */
  predicate LegacyApproveSent(env: Env, o: LegacyApprovalOracle) {
    env.providerPresent && o.populateFails.None?
  }

  /** The approval comes back Sent: the approve transaction is confirmed. */
  ghost predicate LegacyApprovalGranted(env: Env, o: LegacyApprovalOracle) {
    LegacyApproveSent(env, o) && o.tx.reply.Broadcast? && ReceiptFirst(o.tx.polls)
  }

  /** The raw amount the older approval asks for. */
  function LegacyApprovalRaw(token: Token): (raw: nat)
    ensures LegacyFromReadableAmount(LegacyApprovalAmount as real, token.decimals) == Converted(raw)
  {
    LegacyWholeAmount(LegacyApprovalAmount, token.decimals);
    LegacyApprovalAmount * Pow10(token.decimals)
  }

  /** getTokenTransferApproval of the older revision: no allowance check, an
      approve of 2000 whole tokens whenever there is a provider and the
      transaction can be built.  A build failure is only printed; as in the
      current revision the send inside the try is not awaited, so a rejected
      send escapes. */
  function LegacyGetTokenTransferApproval(token: Token, env: Env, o: LegacyApprovalOracle): (s: Step<TxState, LegacyLog>)
    ensures !LegacyApproveSent(env, o) ==> s == Step(Returns(Failed), Quiet())
    ensures s.effects.txs == if LegacyApproveSent(env, o) then [Approve(token, LegacyApprovalRaw(token))] else []
    ensures s.out == Returns(Sent) <==> LegacyApprovalGranted(env, o)
    ensures s.out.Returns? ==> s.out.value == Sent || s.out.value == Failed
    ensures s.out.Raises? <==> LegacyApproveSent(env, o) && o.tx.reply.SendFails?
    ensures s.out.Polling? <==> LegacyApproveSent(env, o) && o.tx.reply.Broadcast? && AllNull(o.tx.polls)
    ensures s.effects.errors == [] && s.effects.requests == [] && s.effects.alerts == []
    ensures s.effects.logs == [] && s.effects.trades == [] && s.effects.orders == []
  {
    if !env.providerPresent || o.populateFails.Some? then Step(Returns(Failed), Quiet())
    else Step(LegacySendViaWallet(o.tx, env.providerPresent), Submitted(Approve(token, LegacyApprovalRaw(token))))
  }

  /** executeRoute of the older revision: refuse without a wallet, get the
      approval, and submit the swap only when it came back Sent.  Nothing is
      caught: a rejected swap propagates. */
  function LegacyExecuteRoute(route: Route, tokenIn: Token, env: Env, approval: LegacyApprovalOracle, swap: TxOracle): (s: Step<TxState, LegacyLog>)
    ensures !env.providerPresent ==> s == Step(Raises(NoWalletMessage), Quiet())
    ensures s.effects.txs ==
      LegacyGetTokenTransferApproval(tokenIn, env, approval).effects.txs +
      (if LegacyApprovalGranted(env, approval) then [Swap(route)] else [])
    ensures s.out == Returns(Sent) <==> LegacyApprovalGranted(env, approval) && swap.reply.Broadcast? && ReceiptFirst(swap.polls)
    ensures s.out.Returns? ==> s.out.value == Sent || s.out.value == Failed
    ensures env.providerPresent && !LegacyApprovalGranted(env, approval) && s.out.Returns? ==> s.out.value == Failed
    ensures s.out.Raises? <==> !env.providerPresent || (LegacyApproveSent(env, approval) && approval.tx.reply.SendFails?) || (LegacyApprovalGranted(env, approval) && swap.reply.SendFails?)
    ensures s.out.Polling? <==> (LegacyApproveSent(env, approval) && approval.tx.reply.Broadcast? && AllNull(approval.tx.polls)) || (LegacyApprovalGranted(env, approval) && swap.reply.Broadcast? && AllNull(swap.polls))
    ensures s.effects.errors == [] && s.effects.requests == [] && s.effects.alerts == []
    ensures s.effects.logs == [] && s.effects.trades == [] && s.effects.orders == []
  {
    if !env.providerPresent then Step(Raises(NoWalletMessage), Quiet())
    else
      var a := LegacyGetTokenTransferApproval(tokenIn, env, approval);
      match a.out
      case Raises(m) => Step(Raises(m), a.effects)
      case Polling => Step(Polling, a.effects)
      case Returns(state) =>
        if state != Sent then Step(Returns(Failed), a.effects)
        else Step(LegacySendViaWallet(swap, env.providerPresent), Then(a.effects, Submitted(Swap(route))))
  }
}

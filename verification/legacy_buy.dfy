/** The buy order of the older revision (libs/buy.ts): USDC for WETH, a
    missing log rejects before anything is asked, a conflicting position is
    only printed, route errors propagate, and once the gate passes the
    position is saved whatever state executeRoute returned. */
module LegacyBuyOrder {
  import opened Common
  import opened Domain
  import opened Amounts
  import opened Provider
  import opened Routing
  import opened Orders
  import opened LegacyUtils
  import opened LegacyRouting

  /** The `strategy` section buy reads from CurrentConfig: the USDC balance a
      buy must exceed and the share of it a buy spends. */
  datatype LegacyStrategy = LegacyStrategy(min: real, size: real)

  /** What the outside world answers during one buy: the USDC balance read,
      the router's reply, the approval and swap transactions, and the USDC
      and WETH balances read after the swap. */
  datatype LegacyBuyOracle = LegacyBuyOracle(
    balance: Reading, router: RouterReply, approval: LegacyApprovalOracle,
    swap: TxOracle, usdcAfter: Reading, wethAfter: Reading)

  /** The USDC balance after dust-nulling. */
  function Formatted(o: LegacyBuyOracle): real
    requires o.balance.Read?
  {
    BalanceValue(o.balance.raw, UsdcToken.decimals)
  }

  /** What a buy spends: getBuyAmount of the formatted balance. */
  function TradeAmount(st: LegacyStrategy, o: LegacyBuyOracle): real
    requires o.balance.Read?
  {
    GetBuyAmount(Formatted(o), st.size)
  }

  /** The trade amount converts to raw units without throwing. */
  predicate Converts(st: LegacyStrategy, o: LegacyBuyOracle)
    requires o.balance.Read?
  {
    LegacyFromReadableAmount(TradeAmount(st, o), UsdcToken.decimals).Converted?
  }

  /** The gate of buy: a balance that was read and formatted, a route, a
      balance above the minimum, and a log that exists and shows no open
      position. */
  predicate Proceeds(st: LegacyStrategy, log: Option<LegacyLog>, o: LegacyBuyOracle) {
    Formats(o.balance) && log.Some? && Converts(st, o) && o.router.Found? &&
    Formatted(o) > st.min && !log.value.positionOpen
  }

  /** The executeRoute call of a buy that passed the gate. */
  function Execution(env: Env, o: LegacyBuyOracle): Step<TxState, LegacyLog>
    requires o.router.Found?
  {
    LegacyExecuteRoute(o.router.route, UsdcToken, env, o.approval, o.swap)
  }

  /** The balances could be read and formatted again after the swap. */
  predicate Resynced(o: LegacyBuyOracle) {
    GetTokenBalances(o.usdcAfter, o.wethAfter).Returns?
  }

  /** The resynced (USDC, WETH) balances. */
  function After(o: LegacyBuyOracle): Holdings
    requires Resynced(o)
  {
    GetTokenBalances(o.usdcAfter, o.wethAfter).value
  }

  /** The position log saved by a buy: the previous log with the position
      flag, the balances and the last-trade fields replaced. */
  function LegacyOpened(l: LegacyLog, price: Price, now: string, usdc: real, weth: real): (r: LegacyLog)
    ensures r.positionOpen <==> weth > 0.0
    ensures r.usdcBalance == usdc && r.wethBalance == weth
    ensures r.lastTradePrice == Some(price)
    ensures r.pnl == l.pnl
  {
    l.(positionOpen := weth > 0.0, usdcBalance := usdc, wethBalance := weth,
       lastTrade := Some("Position opened at " + price.text), lastTradeTime := Some("[" + now + "]"),
       lastTradePrice := Some(price))
  }

  /** What a settled buy writes: the log and one alert, with no explorer link. */
  function Settlement(price: Price, l: LegacyLog, env: Env, o: LegacyBuyOracle): Trace<LegacyLog>
    requires Resynced(o)
  {
    Quiet().(
      logs := [LegacyOpened(l, price, env.now, After(o).stable, After(o).token)],
      alerts := [PositionOpened(price.text, After(o).token, None)])
  }

  /** Something in the try block throws: executeRoute, or the re-read of the
      balances after it returned. */
  predicate Fails(env: Env, o: LegacyBuyOracle)
    requires o.router.Found?
  {
    Execution(env, o).out.Raises? || (Execution(env, o).out.Returns? && !Resynced(o))
  }

  /** The try block: execute, ignore the state it returns, re-read the
      balances and settle. */
  function Attempt(price: Price, l: LegacyLog, env: Env, o: LegacyBuyOracle): (s: Step<Unit, LegacyLog>)
    requires o.router.Found?
    ensures s.out.Raises? <==> Fails(env, o)
    ensures s.out.Polling? <==> Execution(env, o).out.Polling?
    ensures s.effects ==
      if Execution(env, o).out.Returns? && Resynced(o)
      then Then(Execution(env, o).effects, Settlement(price, l, env, o))
      else Execution(env, o).effects
  {
    var e := Execution(env, o);
    match e.out
    case Raises(m) => Step(Raises(m), e.effects)
    case Polling => Step(Polling, e.effects)
    case Returns(_) =>
      var b := GetTokenBalances(o.usdcAfter, o.wethAfter);
      if b.Returns? then Step(Returns(()), Then(e.effects, Settlement(price, l, env, o)))
      else Step(Raises(b.message), e.effects)
  }

  /** The try/catch: a failure sends one alert and tracks one BUY entry,
      without a chain name. */
  function Guarded(price: Price, l: LegacyLog, env: Env, o: LegacyBuyOracle): Step<Unit, LegacyLog>
    requires o.router.Found?
  {
    Catch(Attempt(price, l, env, o), BuyOrderFailed, BuyError, None)
  }

  /** buy(price).  The balance is read and formatted before the log is. */
  function LegacyBuy(st: LegacyStrategy, price: Price, log: Option<LegacyLog>, env: Env, o: LegacyBuyOracle): (r: Step<Unit, LegacyLog>)
    ensures r.effects.orders == []
    ensures r.effects.txs != [] || r.out.Polling? ==> Proceeds(st, log, o)
  {
    match o.balance
    case ReadFails(m) => Step(Raises(m), Quiet())
    case Read(raw) =>
      var f := FormatBalance(raw, UsdcToken.decimals);
      if f.Raises? then Step(Raises(f.message), Quiet())
      else if log.None? then Step(Raises(UndefinedLogMessage), Quiet())
      else
        var g := LegacyGenerateRoute(UsdcToken, WethToken, TradeAmount(st, o), env, o.router);
        if g.out.Raises? then Step(Raises(g.out.message), g.effects)
        else if Proceeds(st, log, o) then
          var t := Guarded(price, log.value, env, o);
          Step(t.out, Then(g.effects, t.effects))
        else Step(Returns(()), g.effects)
  }

  /** A balance read that throws, or a balance of 10^21 raw units or more
      that formatBalance cannot format, rejects buy before anything else
      happens. */
  lemma LegacyBuyReadFails(st: LegacyStrategy, price: Price, log: Option<LegacyLog>, env: Env, o: LegacyBuyOracle)
    requires !Formats(o.balance)
    ensures LegacyBuy(st, price, log, env, o) ==
      Step(Raises(if o.balance.ReadFails? then o.balance.message else BigNumberMessage), Quiet())
  {
  }

  /** A missing log is a TypeError at the conflict check, before any route
      is asked for, once the balance has been formatted. */
  lemma LegacyBuyUndefinedLog(st: LegacyStrategy, price: Price, env: Env, o: LegacyBuyOracle)
    requires o.balance.Read?
    ensures LegacyBuy(st, price, None, env, o) ==
      Step(Raises(if Unformattable(o.balance.raw) then BigNumberMessage else UndefinedLogMessage), Quiet())
  {
  }

  /** With a log, one route is requested for the strategy's share of the
      balance, unless the balance could not be read or formatted or that
      share does not convert to raw units. */
  lemma LegacyBuyRequestsRoute(st: LegacyStrategy, price: Price, l: LegacyLog, env: Env, o: LegacyBuyOracle)
    ensures LegacyBuy(st, price, Some(l), env, o).effects.requests ==
      if Formats(o.balance) && Converts(st, o)
      then [RouteRequest(UsdcToken, WethToken, TradeAmount(st, o),
              LegacyFromReadableAmount(TradeAmount(st, o), UsdcToken.decimals).raw, RouteOptions(env.nowMs))]
      else []
  {
  }

  /** buy rejects when reading or formatting the balance throws, when the log
      is missing, and when route generation throws; failures inside the try
      block are caught. */
  lemma LegacyBuyOutcome(st: LegacyStrategy, price: Price, log: Option<LegacyLog>, env: Env, o: LegacyBuyOracle)
    ensures LegacyBuy(st, price, log, env, o).out.Raises? <==>
      !Formats(o.balance) || log.None? || !Converts(st, o) || o.router.RouterFails?
    ensures LegacyBuy(st, price, log, env, o).out.Polling? <==>
      Proceeds(st, log, o) && Execution(env, o).out.Polling?
  {
  }

  /** The only error a buy tracks is the BUY entry of its catch block: an
      open position, a route failure or a failed approval track nothing. */
  lemma LegacyBuyErrors(st: LegacyStrategy, price: Price, log: Option<LegacyLog>, env: Env, o: LegacyBuyOracle)
    ensures LegacyBuy(st, price, log, env, o).effects.errors ==
      if Proceeds(st, log, o) && Fails(env, o)
      then [ErrorReport(BuyError, Attempt(price, log.value, env, o).out.message, None, None)]
      else []
    ensures CountKind(LegacyBuy(st, price, log, env, o).effects.errors, OrderConflict) == 0
  {
  }

  /** Nothing is submitted, saved or announced unless the gate holds. */
  lemma LegacyBuyGate(st: LegacyStrategy, price: Price, log: Option<LegacyLog>, env: Env, o: LegacyBuyOracle)
    ensures !Proceeds(st, log, o) ==>
      LegacyBuy(st, price, log, env, o).effects.txs == [] && LegacyBuy(st, price, log, env, o).effects.logs == [] &&
      LegacyBuy(st, price, log, env, o).effects.alerts == []
    ensures Proceeds(st, log, o) ==> LegacyBuy(st, price, log, env, o).effects.txs == Execution(env, o).effects.txs
  {
  }

  /** Settlement: exactly when the gate holds, executeRoute returned (Sent or
      Failed alike) and the balances were re-read, buy saves the opened
      position. */
  lemma LegacyBuySettlement(st: LegacyStrategy, price: Price, log: Option<LegacyLog>, env: Env, o: LegacyBuyOracle)
    ensures LegacyBuy(st, price, log, env, o).effects.logs ==
      if Proceeds(st, log, o) && Execution(env, o).out.Returns? && Resynced(o)
      then [LegacyOpened(log.value, price, env.now, After(o).stable, After(o).token)] else []
  {
  }

  /** The alerts of a buy: the opened position when it settles, "Buy order
      failed" when the try block throws, nothing otherwise. */
  lemma LegacyBuyAlerts(st: LegacyStrategy, price: Price, log: Option<LegacyLog>, env: Env, o: LegacyBuyOracle)
    ensures LegacyBuy(st, price, log, env, o).effects.alerts ==
      if !Proceeds(st, log, o) then []
      else if Execution(env, o).out.Returns? && Resynced(o) then [PositionOpened(price.text, After(o).token, None)]
      else if Fails(env, o) then [BuyOrderFailed]
      else []
  {
  }

  /** The outcome-agnostic settlement: a buy whose approval was never even
      built, so that no swap was submitted, still saves a position. */
  lemma LegacyBuySettlesWithoutSwap(st: LegacyStrategy, price: Price, l: LegacyLog, env: Env, o: LegacyBuyOracle)
    requires Proceeds(st, Some(l), o) && env.providerPresent
    requires o.approval.populateFails.Some? && Resynced(o)
    ensures LegacyBuy(st, price, Some(l), env, o).effects.txs == []
    ensures LegacyBuy(st, price, Some(l), env, o).effects.logs == [LegacyOpened(l, price, env.now, After(o).stable, After(o).token)]
  {
    LegacyBuySettlement(st, price, Some(l), env, o);
  }
}

/** The sell order of the older revision (libs/sell.ts): all of the WETH for
    USDC, gated on a balance above dust, an open position and a route; once
    the gate passes the position is closed whatever state executeRoute
    returned, and the profit of the trade is added to the running P&L.  A
    failure is only printed. */
module LegacySellOrder {
  import opened Common
  import opened Domain
  import opened Amounts
  import opened Provider
  import opened Routing
  import opened Orders
  import opened LegacyUtils
  import opened LegacyRouting

  /** What the outside world answers during one sell: the WETH balance read,
      the router's reply, the approval and swap transactions, and the USDC
      and WETH balances read after the swap. */
  datatype LegacySellOracle = LegacySellOracle(
    balance: Reading, router: RouterReply, approval: LegacyApprovalOracle,
    swap: TxOracle, usdcAfter: Reading, wethAfter: Reading)

  /** The WETH balance after dust-nulling: what sell offers. */
  function Formatted(o: LegacySellOracle): real
    requires o.balance.Read?
  {
    BalanceValue(o.balance.raw, WethToken.decimals)
  }

  /** hasBalance: the formatted balance exceeds 1e-15. */
  predicate HasBalance(o: LegacySellOracle)
    requires o.balance.Read?
  {
    Formatted(o) > DustThreshold
  }

  /** Since dust already reads as zero, hasBalance is "the balance is not
      zero", and on raw units "more than 10^3 wei". */
  lemma HasBalanceMeaning(o: LegacySellOracle)
    requires o.balance.Read?
    ensures HasBalance(o) <==> Formatted(o) != 0.0
    ensures HasBalance(o) <==> o.balance.raw * DustDenominator > Pow10(WethToken.decimals)
  {
    FormatBalanceZeroIff(o.balance.raw, WethToken.decimals);
  }

  /** The whole formatted balance converts to raw units for the route. */
  predicate Converts(o: LegacySellOracle)
    requires o.balance.Read?
  {
    LegacyFromReadableAmount(Formatted(o), WethToken.decimals).Converted?
  }

  /** The raw amount sell asks the router to swap is the whole raw balance,
      or 0 for dust; the conversion never throws on the fraction, only on a
      balance that prints in exponent form. */
  lemma OfferConversion(o: LegacySellOracle)
    requires o.balance.Read?
    ensures LegacyFromReadableAmount(Formatted(o), WethToken.decimals) ==
      if ExponentForm(Formatted(o)) then Throws(InvalidDecimalMessage)
      else Converted(if Formatted(o) == 0.0 then 0 else o.balance.raw)
  {
    if Formatted(o) == 0.0 {
      LegacyWholeAmount(0, WethToken.decimals);
    } else {
      LegacyFromReadableOfScale(o.balance.raw, WethToken.decimals);
    }
  }

  /** On raw units: the formatted balance converts when it is dust (at most
      10^3 wei) or between 10^12 wei (10^-6 WETH) and 10^39 wei (10^21 WETH);
      a balance above dust and below 10^12 wei is in exponent form and
      throws.  A balance of 10^21 wei or more never gets that far: formatting
      it throws first, so the conversion is reached and succeeds exactly on
      dust and on 10^12 up to 10^21 wei. */
  lemma LegacySellConverts(o: LegacySellOracle)
    requires o.balance.Read?
    ensures Converts(o) <==>
      o.balance.raw <= 1000 ||
      (1_000_000_000_000 <= o.balance.raw < 1_000_000_000_000_000_000_000_000_000_000_000_000_000)
    ensures Formats(o.balance) && Converts(o) <==>
      (-ExponentFrom < o.balance.raw <= 1000) ||
      (1_000_000_000_000 <= o.balance.raw < ExponentFrom)
  {
    var raw := o.balance.raw;
    Pow10Eighteen();
    OfferConversion(o);
    FormatBalanceZeroIff(raw, WethToken.decimals);
    ScaleAtMost(raw, WethToken.decimals, PlainMin);
    ScaleAtMost(raw, WethToken.decimals, PlainLimit);
    if Formatted(o) != 0.0 {
      assert Formatted(o) == Scale(raw, WethToken.decimals);
      assert Formatted(o) > 0.0;
    }
  }

  /** The gate of sell: a balance that was read and formatted and that
      converts, a route, a balance above dust, and a log that exists and
      shows an open position. */
  predicate Proceeds(log: Option<LegacyLog>, o: LegacySellOracle) {
    Formats(o.balance) && log.Some? && Converts(o) && o.router.Found? && HasBalance(o) && log.value.positionOpen
  }

  /** The executeRoute call of a sell that passed the gate. */
  function Execution(env: Env, o: LegacySellOracle): Step<TxState, LegacyLog>
    requires o.router.Found?
  {
    LegacyExecuteRoute(o.router.route, WethToken, env, o.approval, o.swap)
  }

  /** The balances could be read and formatted again after the swap. */
  predicate Resynced(o: LegacySellOracle) {
    GetTokenBalances(o.usdcAfter, o.wethAfter).Returns?
  }

  /** The resynced (USDC, WETH) balances. */
  function After(o: LegacySellOracle): Holdings
    requires Resynced(o)
  {
    GetTokenBalances(o.usdcAfter, o.wethAfter).value
  }

  /** lastTradePNL: the sold balance valued at the sell price minus the same
      balance valued at the last trade's price.  A log without a last trade
      price gives NaN, modelled as no value. */
  function TradePnl(price: Price, last: Option<Price>, sold: real): (r: Option<real>)
    ensures r.Some? <==> last.Some?
    ensures r.Some? ==> r.value == (price.value - last.value.value) * sold
  {
    match last
    case None => None
    case Some(p) => Some(price.value * sold - p.value * sold)
  }

  /** `log.PNL ? log.PNL + lastTradePNL : lastTradePNL`: a missing, zero or
      NaN running P&L restarts from this trade; NaN stays NaN. */
  function AccumulatedPnl(running: Option<real>, trade: Option<real>): (r: Option<real>)
    ensures running.None? || running == Some(0.0) ==> r == trade
    ensures running.Some? && running.value != 0.0 && trade.Some? ==> r == Some(running.value + trade.value)
    ensures trade.None? ==> r.None?
  {
    match running
    case Some(v) =>
      if v == 0.0 then trade
      else (match trade
            case Some(t) => Some(v + t)
            case None => None)
    case None => trade
  }

  /** The position log saved by a sell: written from scratch, always closed. */
  function LegacyClosed(price: Price, now: string, usdc: real, weth: real, pnl: Option<real>): (r: LegacyLog)
    ensures !r.positionOpen
    ensures r.usdcBalance == usdc && r.wethBalance == weth
    ensures r.lastTradePrice == Some(price) && r.pnl == pnl
  {
    LegacyLog(false, usdc, weth, Some("Position closed at " + price.text), Some("[" + now + "]"), Some(price), pnl)
  }

  /** The P&L a settled sell saves. */
  function NewPnl(price: Price, l: LegacyLog, o: LegacySellOracle): Option<real>
    requires o.balance.Read?
  {
    AccumulatedPnl(l.pnl, TradePnl(price, l.lastTradePrice, Formatted(o)))
  }

  /** What a settled sell writes: the closed log only; no alert, no trade. */
  function Settlement(price: Price, l: LegacyLog, env: Env, o: LegacySellOracle): Trace<LegacyLog>
    requires o.balance.Read? && Resynced(o)
  {
    SavedLog(LegacyClosed(price, env.now, After(o).stable, After(o).token, NewPnl(price, l, o)))
  }

  /** Something in the try block throws. */
  predicate Fails(env: Env, o: LegacySellOracle)
    requires o.router.Found?
  {
    Execution(env, o).out.Raises? || (Execution(env, o).out.Returns? && !Resynced(o))
  }

  /** The try block: execute, ignore the state it returns, re-read the
      balances and close the position. */
  function Attempt(price: Price, l: LegacyLog, env: Env, o: LegacySellOracle): (s: Step<Unit, LegacyLog>)
    requires o.balance.Read? && o.router.Found?
    ensures s.out.Raises? <==> Fails(env, o)
    ensures s.out.Polling? <==> Execution(env, o).out.Polling?
    ensures s.effects ==
      if Execution(env, o).out.Returns? && Resynced(o)
      then Then(Execution(env, o).effects, Settlement(price, l, env, o))
      else Execution(env, o).effects
  {
    var e := Execution(env, o);
    match e.out
    case Raises(m) => Step(Raises(m), e.effects)
    case Polling => Step(Polling, e.effects)
    case Returns(_) =>
      var b := GetTokenBalances(o.usdcAfter, o.wethAfter);
      if b.Returns? then Step(Returns(()), Then(e.effects, Settlement(price, l, env, o)))
      else Step(Raises(b.message), e.effects)
  }

  /** The catch block of sell prints the error and nothing else: the
      exception is swallowed. */
  function Swallow(t: Step<Unit, LegacyLog>): (s: Step<Unit, LegacyLog>)
    ensures s.effects == t.effects
    ensures !s.out.Raises?
    ensures !t.out.Raises? ==> s.out == t.out
  {
    if t.out.Raises? then Step(Returns(()), t.effects) else t
  }

  /** sell(price).  The balance is read and formatted before the log is. */
  function LegacySell(price: Price, log: Option<LegacyLog>, env: Env, o: LegacySellOracle): (r: Step<Unit, LegacyLog>)
    ensures r.effects.orders == []
    ensures r.effects.txs != [] || r.out.Polling? ==> Proceeds(log, o)
  {
    match o.balance
    case ReadFails(m) => Step(Raises(m), Quiet())
    case Read(raw) =>
      var f := FormatBalance(raw, WethToken.decimals);
      if f.Raises? then Step(Raises(f.message), Quiet())
      else if log.None? then Step(Raises(UndefinedLogMessage), Quiet())
      else
        var g := LegacyGenerateRoute(WethToken, UsdcToken, Formatted(o), env, o.router);
        var proceeds := !g.out.Raises? && Proceeds(log, o);
        var out: Outcome<Unit> :=
          if g.out.Raises? then Raises(g.out.message)
          else if proceeds then Swallow(Attempt(price, log.value, env, o)).out
          else Returns(());
        var rest: Trace<LegacyLog> := if proceeds then Swallow(Attempt(price, log.value, env, o)).effects else Quiet();
        Step(out, Then(g.effects, rest))
  }

  /** A balance read that throws, or a balance of 10^21 wei or more that
      formatBalance cannot format, rejects sell before anything else
      happens. */
  lemma LegacySellReadFails(price: Price, log: Option<LegacyLog>, env: Env, o: LegacySellOracle)
    requires !Formats(o.balance)
    ensures LegacySell(price, log, env, o) ==
      Step(Raises(if o.balance.ReadFails? then o.balance.message else BigNumberMessage), Quiet())
  {
  }

  /** A missing log is a TypeError at the position check, before any route
      is asked for, once the balance has been formatted. */
  lemma LegacySellUndefinedLog(price: Price, env: Env, o: LegacySellOracle)
    requires o.balance.Read?
    ensures LegacySell(price, None, env, o) ==
      Step(Raises(if Unformattable(o.balance.raw) then BigNumberMessage else UndefinedLogMessage), Quiet())
  {
  }

  /** With a log, one route is requested, for the whole formatted balance
      as the whole raw balance (0 for dust), unless the balance could not be
      read or formatted or does not convert. */
  lemma LegacySellRequestsRoute(price: Price, l: LegacyLog, env: Env, o: LegacySellOracle)
    ensures LegacySell(price, Some(l), env, o).effects.requests ==
      if !Formats(o.balance) || !Converts(o) then []
      else [RouteRequest(WethToken, UsdcToken, Formatted(o),
              if Formatted(o) == 0.0 then 0 else o.balance.raw, RouteOptions(env.nowMs))]
  {
    if Formats(o.balance) {
      OfferConversion(o);
    }
  }

  /** sell rejects when reading or formatting the balance throws, when the
      log is missing, when the balance does not convert, or when the router
      throws; nothing after the gate can reject it. */
  lemma LegacySellOutcome(price: Price, log: Option<LegacyLog>, env: Env, o: LegacySellOracle)
    ensures LegacySell(price, log, env, o).out.Raises? <==>
      !Formats(o.balance) || log.None? || !Converts(o) || o.router.RouterFails?
    ensures LegacySell(price, log, env, o).out.Polling? <==>
      Proceeds(log, o) && Execution(env, o).out.Polling?
  {
  }

  /** sell never tracks an error and never sends an alert, even when the
      swap fails. */
  lemma LegacySellSilent(price: Price, log: Option<LegacyLog>, env: Env, o: LegacySellOracle)
    ensures LegacySell(price, log, env, o).effects.errors == []
    ensures LegacySell(price, log, env, o).effects.alerts == []
    ensures LegacySell(price, log, env, o).effects.trades == []
  {
  }

  /** Nothing is submitted or saved unless the gate holds. */
  lemma LegacySellGate(price: Price, log: Option<LegacyLog>, env: Env, o: LegacySellOracle)
    ensures !Proceeds(log, o) ==>
      LegacySell(price, log, env, o).effects.txs == [] && LegacySell(price, log, env, o).effects.logs == []
    ensures Proceeds(log, o) ==> LegacySell(price, log, env, o).effects.txs == Execution(env, o).effects.txs
  {
  }

  /** Settlement: exactly when the gate holds, executeRoute returned (Sent or
      Failed alike) and the balances were re-read, sell saves a closed
      position carrying the accumulated P&L; a failure leaves the log alone. */
  lemma LegacySellSettlement(price: Price, log: Option<LegacyLog>, env: Env, o: LegacySellOracle)
    ensures LegacySell(price, log, env, o).effects.logs ==
      if Proceeds(log, o) && Execution(env, o).out.Returns? && Resynced(o)
      then [LegacyClosed(price, env.now, After(o).stable, After(o).token, NewPnl(price, log.value, o))] else []
    ensures forall i | 0 <= i < |LegacySell(price, log, env, o).effects.logs| ::
      !LegacySell(price, log, env, o).effects.logs[i].positionOpen
  {
  }

  /** The running P&L after selling `sold` tokens of a position bought at
      `p`: the old running P&L plus (price - p) times the amount sold. */
  lemma PnlAccumulates(price: Price, l: LegacyLog, o: LegacySellOracle, p: Price)
    requires o.balance.Read? && l.lastTradePrice == Some(p)
    ensures NewPnl(price, l, o) == Some(l.pnl.GetOr(0.0) + (price.value - p.value) * Formatted(o))
  {
    var gain := (price.value - p.value) * Formatted(o);
    var t := TradePnl(price, l.lastTradePrice, Formatted(o));
    assert t.Some? && t.value == gain;
    if l.pnl.None? || l.pnl == Some(0.0) {
      assert NewPnl(price, l, o) == Some(gain);
    } else {
      assert NewPnl(price, l, o) == Some(l.pnl.value + gain);
    }
  }

  /** A settled sell saves that accumulated P&L. */
  lemma LegacySellAccumulates(price: Price, l: LegacyLog, env: Env, o: LegacySellOracle, p: Price)
    requires Proceeds(Some(l), o) && Execution(env, o).out.Returns? && Resynced(o)
    requires l.lastTradePrice == Some(p)
    ensures |LegacySell(price, Some(l), env, o).effects.logs| == 1
    ensures LegacySell(price, Some(l), env, o).effects.logs[0].pnl ==
      Some(l.pnl.GetOr(0.0) + (price.value - p.value) * Formatted(o))
  {
    LegacySellSettlement(price, Some(l), env, o);
    PnlAccumulates(price, l, o, p);
  }

  /** The worked example: an open position bought at 1800 and no P&L yet;
      0.02 WETH is sold at 1850 with confirmed approval and swap.  The saved
      log is closed and carries a P&L of 1 (50 per token on 0.02 tokens). */
  lemma LegacySellScenario(l: LegacyLog, env: Env, o: LegacySellOracle, bought: string, sold: string)
    requires l.positionOpen && l.lastTradePrice == Some(Price(bought, 1800.0)) && l.pnl.None?
    requires env.providerPresent && o.balance == Read(20_000_000_000_000_000) && o.router.Found?
    requires o.approval.populateFails.None? && o.approval.tx.reply.Broadcast? && ReceiptFirst(o.approval.tx.polls)
    requires o.swap.reply.Broadcast? && ReceiptFirst(o.swap.polls) && Resynced(o)
    ensures Formatted(o) == 0.02
    ensures |LegacySell(Price(sold, 1850.0), Some(l), env, o).effects.logs| == 1
    ensures !LegacySell(Price(sold, 1850.0), Some(l), env, o).effects.logs[0].positionOpen
    ensures LegacySell(Price(sold, 1850.0), Some(l), env, o).effects.logs[0].pnl == Some(1.0)
  {
    Pow10Eighteen();
    assert Scale(20_000_000_000_000_000, 18) == 0.02;
    assert Formatted(o) == 0.02;
    OfferConversion(o);
    assert Proceeds(Some(l), o);
    assert Execution(env, o).out == Returns(Sent);
    LegacySellSettlement(Price(sold, 1850.0), Some(l), env, o);
  }

  /** 10^11 wei is above dust, but 1e-7 WETH prints in exponent form: with a
      log present the older sell rejects at route generation, before asking
      the router anything. */
  lemma LegacySellTinyBalance(price: Price, l: LegacyLog, env: Env, o: LegacySellOracle)
    requires o.balance == Read(100_000_000_000)
    ensures HasBalance(o)
    ensures LegacySell(price, Some(l), env, o) == Step(Raises(InvalidDecimalMessage), Quiet())
  {
    TinyBalanceThrows();
    assert Formatted(o) == 0.0000001;
  }
}

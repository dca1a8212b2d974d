/** The sell order of the current revision (src/lib/sell.ts): read the token
    and stablecoin balances, flag the absence of an open position, ask for a
    route for the whole token balance, and only when the route exists, the
    token balance is above dust and a position is open, execute the swap and
    record the closed position. */
module SellOrder {
  import opened Common
  import opened Domain
  import opened Amounts
  import opened Provider
  import opened Routing
  import opened Orders
  import opened Store

  /** What the outside world answers during one sell: the token and
      stablecoin balance reads (in that order), the router's reply, the
      approval and swap transactions, the balances read after the swap, and
      the key generateRandomHash returns. */
  datatype SellOracle = SellOracle(
    tokenBalance: Reading, stableBalance: Reading, router: RouterReply, approval: ApprovalOracle,
    swap: TxOracle, resync: Resync, tradeKey: string)

  const ConflictMessage := "Sell order recieved, but no position is currently open"

  /** Both balance reads succeeded. */
  predicate BalancesRead(o: SellOracle) {
    o.tokenBalance.Read? && o.stableBalance.Read?
  }

  /** Both balances were read and formatBalance can format both. */
  predicate BalancesFormatted(o: SellOracle) {
    Formats(o.tokenBalance) && Formats(o.stableBalance)
  }

  /** The token balance after dust-nulling: what a sell sells. */
  function Formatted(cfg: Config, o: SellOracle): real
    requires o.tokenBalance.Read?
  {
    BalanceValue(o.tokenBalance.raw, cfg.token.decimals)
  }

  /** The stablecoin balance before the sell, after dust-nulling. */
  function OldStable(cfg: Config, o: SellOracle): real
    requires o.stableBalance.Read?
  {
    BalanceValue(o.stableBalance.raw, cfg.stablecoin.decimals)
  }

  /** generateRoute came back with a route for the whole token balance. */
  predicate HasRoute(cfg: Config, o: SellOracle)
    requires o.tokenBalance.Read?
  {
    Routed(cfg.token, Formatted(cfg, o), o.router)
  }

  /** The gate of sell: balances that were read and formatted, a route, a
      token balance above dust, and a log that exists and shows an open
      position. */
  predicate Proceeds(cfg: Config, log: Option<Log>, o: SellOracle) {
    BalancesFormatted(o) && HasRoute(cfg, o) && Formatted(cfg, o) > 0.0 &&
    log.Some? && log.value.positionOpen
  }

  /** The executeRoute call of a sell that passed the gate: the whole token
      balance is spent. */
  function Execution(cfg: Config, env: Env, o: SellOracle): Step<TxInfo, Log>
    requires o.tokenBalance.Read? && o.router.Found?
  {
    ExecuteRoute<Log>(o.router.route, cfg.token, Formatted(cfg, o), env, o.approval, o.swap)
  }

  /** The position log saved by a settled sell: written from scratch, so no
      P&L survives. */
  function Closed(price: string, now: string, stable: real, token: real): (r: Log)
    ensures r.positionOpen <==> token > 0.0
    ensures r.stablecoinBalance == stable && r.tokenBalance == token
    ensures r.lastTradePrice == Some(price)
    ensures r.pnl == None
  {
    Log(token > 0.0, stable, token, Some("Position closed at " + price), Some("[" + now + "]"), Some(price), None)
  }

  /** What a settled sell writes: the log, one trade record, one alert. */
  function Settlement(cfg: Config, price: string, env: Env, o: SellOracle, hash: string): Trace<Log>
    requires BalancesRead(o) && Rereads(o.resync)
  {
    var b := Balances(cfg, o.resync);
    var stable := b.stable;
    var token := b.token;
    var sold := Amount(Formatted(cfg, o), cfg.token.symbol);
    Quiet().(
      logs := [Closed(price, env.now, stable, token)],
      trades := [TradeRecord(o.tradeKey, Side.Sell, price, env.now,
        Amount(stable - OldStable(cfg, o), cfg.stablecoin.symbol), sold, hash, env.chain)],
      alerts := [TokensSold(sold, price, hash)])
  }

  /** The try block: execute, stop quietly without a hash, otherwise re-read
      the balances and settle. */
  function Attempt(cfg: Config, price: string, env: Env, o: SellOracle): (s: Step<Unit, Log>)
    requires BalancesRead(o) && o.router.Found?
    ensures s.out.Raises? <==> Fails(Execution(cfg, env, o), o.resync)
    ensures s.out.Raises? ==> s.out.message == FailureMessage(Execution(cfg, env, o), o.resync)
    ensures s.out.Polling? <==> Execution(cfg, env, o).out.Polling?
    ensures s.effects ==
      if Settles(Execution(cfg, env, o), o.resync)
      then Then(Execution(cfg, env, o).effects, Settlement(cfg, price, env, o, Execution(cfg, env, o).out.value.hash.value))
      else Execution(cfg, env, o).effects
  {
    var e := Execution(cfg, env, o);
    match e.out
    case Raises(m) => Step(Raises(m), e.effects)
    case Polling => Step(Polling, e.effects)
    case Returns(info) =>
      match info.hash
      case None => Step(Returns(()), e.effects)
      case Some(hash) =>
        if !Rereads(o.resync) then Step(Raises(ResyncMessage(o.resync)), e.effects)
        else Step(Returns(()), Then(e.effects, Settlement(cfg, price, env, o, hash)))
  }

  /** The effects of sell up to its gate: the ORDER_CONFLICT report when no
      position is open (or the log is missing), then route generation for the
      whole token balance. */
  function Prelude(cfg: Config, log: Option<Log>, env: Env, o: SellOracle): Step<Option<Route>, Log>
    requires o.tokenBalance.Read?
  {
    var conflict: Trace<Log> :=
      if !(log.Some? && log.value.positionOpen)
      then Tracked(ErrorReport(OrderConflict, ConflictMessage, env.chain, None)) else Quiet();
    var g := GenerateRoute<Log>(cfg.token, cfg.stablecoin, Formatted(cfg, o), env, o.router);
    Step(g.out, Then(conflict, g.effects))
  }

  /** The try/catch of a sell that passed the gate. */
  function Guarded(cfg: Config, price: string, env: Env, o: SellOracle): Step<Unit, Log>
    requires BalancesRead(o) && o.router.Found?
  {
    Catch(Attempt(cfg, price, env, o), SellOrderFailed, SellError, env.chain)
  }

  /** sell(price).  The token balance is read first, then the stablecoin
      balance; then the stablecoin balance is formatted, then the token
      balance.  Any of these can throw, before anything has happened. */
  function Sell(cfg: Config, price: string, log: Option<Log>, env: Env, o: SellOracle): (r: Step<Unit, Log>)
    ensures r.effects.orders == []
    ensures r.effects.txs != [] || r.out.Polling? ==> Proceeds(cfg, log, o)
  {
    match o.tokenBalance
    case ReadFails(m) => Step(Raises(m), Quiet())
    case Read(tokenRaw) =>
      match o.stableBalance
      case ReadFails(m) => Step(Raises(m), Quiet())
      case Read(stableRaw) =>
        var fs := FormatBalance(stableRaw, cfg.stablecoin.decimals);
        var ft := FormatBalance(tokenRaw, cfg.token.decimals);
        if fs.Raises? then Step(Raises(fs.message), Quiet())
        else if ft.Raises? then Step(Raises(ft.message), Quiet())
        else
          var p := Prelude(cfg, log, env, o);
          var out: Outcome<Unit> :=
            if p.out.value.None? || !(Formatted(cfg, o) > 0.0) then Returns(())
            else if log.None? then Raises(UndefinedLogMessage)
            else if !log.value.positionOpen then Returns(())
            else Guarded(cfg, price, env, o).out;
          var rest: Trace<Log> := if Proceeds(cfg, log, o) then Guarded(cfg, price, env, o).effects else Quiet();
          Step(out, Then(p.effects, rest))
  }

  /** A balance read that throws, or a balance formatBalance cannot format
      (10^21 raw units or more), rejects sell before anything else happens;
      both reads come before either format. */
  lemma SellReadFails(cfg: Config, price: string, log: Option<Log>, env: Env, o: SellOracle)
    requires !BalancesFormatted(o)
    ensures Sell(cfg, price, log, env, o).out ==
      Raises(if o.tokenBalance.ReadFails? then o.tokenBalance.message
        else if o.stableBalance.ReadFails? then o.stableBalance.message
        else BigNumberMessage)
    ensures Sell(cfg, price, log, env, o).effects == Quiet()
  {
  }

  /** Once both balances are read and formatted, a route is requested for
      the whole token balance, whatever the gates later decide, unless that
      balance does not convert to raw units; before that, none is. */
  lemma SellRequestsRoute(cfg: Config, price: string, log: Option<Log>, env: Env, o: SellOracle)
    ensures Sell(cfg, price, log, env, o).effects.requests ==
      if BalancesFormatted(o) then RouteRequests(cfg.token, cfg.stablecoin, Formatted(cfg, o), env.nowMs)
      else []
  {
  }

  /** The error reports of a sell, in order: the conflict, the routing
      failure, what executeRoute tracked, and the SELL entry of the catch. */
  lemma SellErrors(cfg: Config, price: string, log: Option<Log>, env: Env, o: SellOracle)
    ensures Sell(cfg, price, log, env, o).effects.errors ==
      if !BalancesFormatted(o) then [] else
      (if !(log.Some? && log.value.positionOpen) then [ErrorReport(OrderConflict, ConflictMessage, env.chain, None)] else []) +
      (if RouteError(cfg.token, Formatted(cfg, o), o.router).Some?
       then [ErrorReport(GenRoute, RouteError(cfg.token, Formatted(cfg, o), o.router).value, env.chain, None)] else []) +
      (if Proceeds(cfg, log, o)
       then Execution(cfg, env, o).effects.errors +
         (if Fails(Execution(cfg, env, o), o.resync)
          then [ErrorReport(SellError, FailureMessage(Execution(cfg, env, o), o.resync), env.chain, None)] else [])
       else [])
  {
    if BalancesFormatted(o) {
      var p := Prelude(cfg, log, env, o);
      if !Proceeds(cfg, log, o) {
        assert p.effects.errors + [] == p.effects.errors;
      }
    }
  }

  /** executeRoute never tracks an ORDER_CONFLICT. */
  lemma ExecutionTracksNoConflict(cfg: Config, env: Env, o: SellOracle)
    requires o.tokenBalance.Read? && o.router.Found?
    ensures CountKind(Execution(cfg, env, o).effects.errors, OrderConflict) == 0
  {
    var a := GetTokenTransferApproval<Log>(cfg.token, Formatted(cfg, o), env, o.approval);
    var swapFail := if ApprovalGranted(cfg.token, Formatted(cfg, o), env, o.approval) && o.swap.reply.SendFails?
      then [ErrorReport(ExecRoute, o.swap.reply.message, env.chain, None)] else [];
    CountKindAppend(a.effects.errors, swapFail, OrderConflict);
  }

  /** Exactly one ORDER_CONFLICT entry when the balances were read and
      formatted and no position is open or the log is missing, none
      otherwise. */
  lemma SellConflictTrackedOnce(cfg: Config, price: string, log: Option<Log>, env: Env, o: SellOracle)
    ensures CountKind(Sell(cfg, price, log, env, o).effects.errors, OrderConflict) ==
      if BalancesFormatted(o) && !(log.Some? && log.value.positionOpen) then 1 else 0
  {
    SellErrors(cfg, price, log, env, o);
    if !BalancesFormatted(o) {
      return;
    }
    var conflict := if !(log.Some? && log.value.positionOpen) then [ErrorReport(OrderConflict, ConflictMessage, env.chain, None)] else [];
    var routing := if RouteError(cfg.token, Formatted(cfg, o), o.router).Some?
      then [ErrorReport(GenRoute, RouteError(cfg.token, Formatted(cfg, o), o.router).value, env.chain, None)] else [];
    if Proceeds(cfg, log, o) {
      var e := Execution(cfg, env, o);
      var caught := if Fails(e, o.resync) then [ErrorReport(SellError, FailureMessage(e, o.resync), env.chain, None)] else [];
      ExecutionTracksNoConflict(cfg, env, o);
      ConflictCount(Sell(cfg, price, log, env, o).effects.errors, conflict, routing, e.effects.errors, caught, true);
    } else {
      ConflictCount(Sell(cfg, price, log, env, o).effects.errors, conflict, routing, [], [], false);
    }
  }

  /** Nothing is submitted, saved or announced unless the gate holds: a
      route, a token balance above dust, and a log showing an open position;
      when it holds, the swap is for the whole token balance. */
  lemma SellGate(cfg: Config, price: string, log: Option<Log>, env: Env, o: SellOracle)
    ensures !Proceeds(cfg, log, o) ==>
      Sell(cfg, price, log, env, o).effects.txs == [] && Sell(cfg, price, log, env, o).effects.logs == [] &&
      Sell(cfg, price, log, env, o).effects.trades == [] && Sell(cfg, price, log, env, o).effects.alerts == []
    ensures Proceeds(cfg, log, o) ==> Sell(cfg, price, log, env, o).effects.txs == Execution(cfg, env, o).effects.txs
  {
  }

  /** Reading `positionOpen` of a missing log is a TypeError that rejects
      sell, but only once the route and the balance have passed; balances
      that cannot be formatted have already rejected it. */
  lemma SellUndefinedLog(cfg: Config, price: string, env: Env, o: SellOracle)
    requires BalancesRead(o)
    ensures Sell(cfg, price, None, env, o).out.Raises? <==>
      !BalancesFormatted(o) || (HasRoute(cfg, o) && Formatted(cfg, o) > 0.0)
    ensures Sell(cfg, price, None, env, o).out.Raises? ==>
      Sell(cfg, price, None, env, o).out.message ==
        (if BalancesFormatted(o) then UndefinedLogMessage else BigNumberMessage)
  {
  }

  /** A sell that passed the gate and whose execution came back without a
      hash returns quietly: no log, no trade, no alert. */
  lemma SellWithoutHash(cfg: Config, price: string, log: Option<Log>, env: Env, o: SellOracle)
    requires Proceeds(cfg, log, o)
    requires Execution(cfg, env, o).out.Returns? && Execution(cfg, env, o).out.value.hash.None?
    ensures Sell(cfg, price, log, env, o).out == Returns(())
    ensures Sell(cfg, price, log, env, o).effects.logs == [] && Sell(cfg, price, log, env, o).effects.trades == []
    ensures Sell(cfg, price, log, env, o).effects.alerts == []
  {
  }

  /** Settlement: exactly when the gate holds, execution returned a hash and
      the balances were re-read, sell saves the closed position and one Sell
      trade: in is the stablecoin gained, out is the token balance sold. */
  lemma SellSettlement(cfg: Config, price: string, log: Option<Log>, env: Env, o: SellOracle)
    ensures Sell(cfg, price, log, env, o).effects.logs ==
      if Proceeds(cfg, log, o) && Settles(Execution(cfg, env, o), o.resync)
      then [Closed(price, env.now, Balances(cfg, o.resync).stable, Balances(cfg, o.resync).token)] else []
    ensures |Sell(cfg, price, log, env, o).effects.trades| == |Sell(cfg, price, log, env, o).effects.logs| <= 1
    ensures forall t | t in Sell(cfg, price, log, env, o).effects.trades ::
      t.side == Side.Sell && t.price == price && t.key == o.tradeKey &&
      t.amountIn == Amount(Balances(cfg, o.resync).stable - OldStable(cfg, o), cfg.stablecoin.symbol) &&
      t.amountOut == Amount(Formatted(cfg, o), cfg.token.symbol) &&
      Some(t.txHash) == Execution(cfg, env, o).out.value.hash
  {
  }

  /** The alerts of a sell: the tokens sold when it settles, "Sell order
      failed" when the try block throws, nothing otherwise. */
  lemma SellAlerts(cfg: Config, price: string, log: Option<Log>, env: Env, o: SellOracle)
    ensures Sell(cfg, price, log, env, o).effects.alerts ==
      if !Proceeds(cfg, log, o) then []
      else if Settles(Execution(cfg, env, o), o.resync)
      then [TokensSold(Amount(Formatted(cfg, o), cfg.token.symbol), price, Execution(cfg, env, o).out.value.hash.value)]
      else if Fails(Execution(cfg, env, o), o.resync) then [SellOrderFailed]
      else []
  {
  }

  /** sell rejects only when reading or formatting a balance throws, or when
      the log is missing at the gate; failures inside the try block are
      caught. */
  lemma SellOutcome(cfg: Config, price: string, log: Option<Log>, env: Env, o: SellOracle)
    ensures Sell(cfg, price, log, env, o).out.Raises? <==>
      !BalancesFormatted(o) || (HasRoute(cfg, o) && Formatted(cfg, o) > 0.0 && log.None?)
    ensures Sell(cfg, price, log, env, o).out.Polling? <==>
      Proceeds(cfg, log, o) && Execution(cfg, env, o).out.Polling?
  {
  }

  /** A sell that does not settle leaves the stored position as it was. */
  lemma UnsettledSellKeepsLog(cfg: Config, price: string, log: Option<Log>, env: Env, o: SellOracle, d: Docs<Log>, disk: Disk)
    requires !Proceeds(cfg, log, o) || !Settles(Execution(cfg, env, o), o.resync)
    ensures Apply(d, Sell(cfg, price, log, env, o).effects, env.now, disk).log == d.log
  {
    SellSettlement(cfg, price, log, env, o);
  }

  /** After a settled sell that left only dust of the token on a writable
      disk, the stored position is closed and carries no P&L, and the next
      sell, reading the stored position `next`, tracks one conflict and submits, saves and records nothing. */
  lemma SecondSellConflicts(cfg: Config, price: string, log: Option<Log>, env: Env, o: SellOracle, d: Docs<Log>, disk: Disk, next: Option<Log>, price2: string, env2: Env, o2: SellOracle)
    requires Proceeds(cfg, log, o) && Settles(Execution(cfg, env, o), o.resync)
    requires o.resync.tokenRaw * DustDenominator <= Pow10(cfg.token.decimals)
    requires disk.logWritable
    requires next == GetLog(Apply(d, Sell(cfg, price, log, env, o).effects, env.now, disk).log)
    ensures next.Some? && !next.value.positionOpen && next.value.pnl.None?
    ensures Sell(cfg, price2, next, env2, o2).effects.txs == [] && Sell(cfg, price2, next, env2, o2).effects.logs == []
    ensures Sell(cfg, price2, next, env2, o2).effects.trades == []
    ensures CountKind(Sell(cfg, price2, next, env2, o2).effects.errors, OrderConflict) ==
      if BalancesFormatted(o2) then 1 else 0
  {
    var fx := Sell(cfg, price, log, env, o).effects;
    SellSettlement(cfg, price, log, env, o);
    ApplyLog(d, fx, env.now, disk);
    assert next == Some(Closed(price, env.now, Balances(cfg, o.resync).stable, Balances(cfg, o.resync).token));
    SellGate(cfg, price2, next, env2, o2);
    SellConflictTrackedOnce(cfg, price2, next, env2, o2);
  }

  /** A token balance above dust but below 10^-6 tokens passes hasBalance,
      yet prints in exponent form: generateRoute asks the router nothing,
      tracks one GEN_ROUTE entry and returns null, so nothing is sold and
      sell returns normally. */
  lemma SellTinyBalance(cfg: Config, price: string, log: Option<Log>, env: Env, o: SellOracle)
    requires BalancesFormatted(o) && cfg.token.decimals == 18 && o.tokenBalance.raw == 100_000_000_000
    ensures Formatted(cfg, o) > DustThreshold
    ensures Sell(cfg, price, log, env, o).effects.requests == []
    ensures CountKind(Sell(cfg, price, log, env, o).effects.errors, GenRoute) == 1
    ensures Sell(cfg, price, log, env, o).effects.txs == [] && Sell(cfg, price, log, env, o).effects.logs == []
    ensures Sell(cfg, price, log, env, o).out == Returns(())
  {
    TinyBalanceThrows();
    assert RouteError(cfg.token, Formatted(cfg, o), o.router) == Some(InvalidDecimalMessage);
    SellErrors(cfg, price, log, env, o);
    var conflict := if !(log.Some? && log.value.positionOpen) then [ErrorReport(OrderConflict, ConflictMessage, env.chain, None)] else [];
    CountKindAppend(conflict, [ErrorReport(GenRoute, InvalidDecimalMessage, env.chain, None)], GenRoute);
  }
}

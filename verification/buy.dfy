/** The buy order of the current revision (src/lib/buy.ts): read the
    stablecoin balance, flag a conflicting open position, ask for a route for
    the strategy's share of the balance, and only when the route exists, the
    balance exceeds the minimum and no position is open, execute the swap and
    record the opened position. */
module BuyOrder {
  import opened Common
  import opened Domain
  import opened Amounts
  import opened Provider
  import opened Routing
  import opened Orders
  import opened Store

  /** What the outside world answers during one buy: the stablecoin balance
      read, the router's reply, the approval and swap transactions, the
      balances read after the swap, and the key generateRandomHash returns. */
  datatype BuyOracle = BuyOracle(
    balance: Reading, router: RouterReply, approval: ApprovalOracle,
    swap: TxOracle, resync: Resync, tradeKey: string)

  const ConflictMessage := "Buy order recieved, but a position is already open"

  /** The stablecoin balance after dust-nulling. */
  function Formatted(cfg: Config, o: BuyOracle): real
    requires o.balance.Read?
  {
    BalanceValue(o.balance.raw, cfg.stablecoin.decimals)
  }

  /** What a buy spends: getBuyAmount of the formatted balance. */
  function TradeAmount(cfg: Config, o: BuyOracle): real
    requires o.balance.Read?
  {
    GetBuyAmount(Formatted(cfg, o), cfg.size)
  }

  /** generateRoute came back with a route for the trade amount. */
  predicate HasRoute(cfg: Config, o: BuyOracle)
    requires o.balance.Read?
  {
    Routed(cfg.stablecoin, TradeAmount(cfg, o), o.router)
  }

  /** The gate of buy: a balance that was read and formatted, a route, a
      balance above the minimum, and a log that exists and shows no open
      position. */
  predicate Proceeds(cfg: Config, log: Option<Log>, o: BuyOracle) {
    Formats(o.balance) && HasRoute(cfg, o) && Formatted(cfg, o) > cfg.min &&
    log.Some? && !log.value.positionOpen
  }

  /** The executeRoute call of a buy that passed the gate. */
  function Execution(cfg: Config, env: Env, o: BuyOracle): Step<TxInfo, Log>
    requires o.balance.Read? && o.router.Found?
  {
    ExecuteRoute<Log>(o.router.route, cfg.stablecoin, TradeAmount(cfg, o), env, o.approval, o.swap)
  }

  /** The position log saved by a settled buy: the previous log with the
      position flag, the balances and the last-trade fields replaced. */
  function Opened(l: Log, price: string, now: string, stable: real, token: real): (r: Log)
    ensures r.positionOpen <==> token > 0.0
    ensures r.stablecoinBalance == stable && r.tokenBalance == token
    ensures r.lastTradePrice == Some(price)
    ensures r.pnl == l.pnl
  {
    l.(positionOpen := token > 0.0, stablecoinBalance := stable, tokenBalance := token,
       lastTrade := Some("Position opened at " + price), lastTradeTime := Some("[" + now + "]"),
       lastTradePrice := Some(price))
  }

  /** What a settled buy writes: the log, one trade record, one alert. */
  function Settlement(cfg: Config, price: string, l: Log, env: Env, o: BuyOracle, hash: string): Trace<Log>
    requires o.balance.Read? && Rereads(o.resync)
  {
    var b := Balances(cfg, o.resync);
    var stable := b.stable;
    var token := b.token;
    Quiet().(
      logs := [Opened(l, price, env.now, stable, token)],
      trades := [TradeRecord(o.tradeKey, Side.Buy, price, env.now,
        Amount(token, cfg.token.symbol), Amount(TradeAmount(cfg, o), cfg.stablecoin.symbol), hash, env.chain)],
      alerts := [PositionOpened(price, token, Some(hash))])
  }

  /** The try block: execute, stop quietly without a hash, otherwise re-read
      the balances and settle. */
  function Attempt(cfg: Config, price: string, l: Log, env: Env, o: BuyOracle): (s: Step<Unit, Log>)
    requires o.balance.Read? && o.router.Found?
    ensures s.out.Raises? <==> Fails(Execution(cfg, env, o), o.resync)
    ensures s.out.Raises? ==> s.out.message == FailureMessage(Execution(cfg, env, o), o.resync)
    ensures s.out.Polling? <==> Execution(cfg, env, o).out.Polling?
    ensures s.effects ==
      if Settles(Execution(cfg, env, o), o.resync)
      then Then(Execution(cfg, env, o).effects, Settlement(cfg, price, l, env, o, Execution(cfg, env, o).out.value.hash.value))
      else Execution(cfg, env, o).effects
  {
    var e := Execution(cfg, env, o);
    match e.out
    case Raises(m) => Step(Raises(m), e.effects)
    case Polling => Step(Polling, e.effects)
    case Returns(info) =>
      match info.hash
      case None => Step(Returns(()), e.effects)
      case Some(hash) =>
        if !Rereads(o.resync) then Step(Raises(ResyncMessage(o.resync)), e.effects)
        else Step(Returns(()), Then(e.effects, Settlement(cfg, price, l, env, o, hash)))
  }

  /** The effects of buy up to its gate: the ORDER_CONFLICT report when a
      position is already open, then route generation for the trade amount. */
  function Prelude(cfg: Config, log: Option<Log>, env: Env, o: BuyOracle): Step<Option<Route>, Log>
    requires o.balance.Read?
  {
    var conflict: Trace<Log> :=
      if log.Some? && log.value.positionOpen
      then Tracked(ErrorReport(OrderConflict, ConflictMessage, env.chain, None)) else Quiet();
    var g := GenerateRoute<Log>(cfg.stablecoin, cfg.token, TradeAmount(cfg, o), env, o.router);
    Step(g.out, Then(conflict, g.effects))
  }

  /** The try/catch of a buy that passed the gate. */
  function Guarded(cfg: Config, price: string, l: Log, env: Env, o: BuyOracle): Step<Unit, Log>
    requires o.balance.Read? && o.router.Found?
  {
    Catch(Attempt(cfg, price, l, env, o), BuyOrderFailed, BuyError, env.chain)
  }

  /** buy(price).  Reading and formatting the balance can throw; nothing has
      happened by then. */
  function Buy(cfg: Config, price: string, log: Option<Log>, env: Env, o: BuyOracle): (r: Step<Unit, Log>)
    ensures r.effects.orders == []
    ensures r.effects.txs != [] || r.out.Polling? ==> Proceeds(cfg, log, o)
  {
    match o.balance
    case ReadFails(m) => Step(Raises(m), Quiet())
    case Read(raw) =>
      var f := FormatBalance(raw, cfg.stablecoin.decimals);
      if f.Raises? then Step(Raises(f.message), Quiet())
      else
        var p := Prelude(cfg, log, env, o);
        var out: Outcome<Unit> :=
          if p.out.value.None? || !(Formatted(cfg, o) > cfg.min) then Returns(())
          else if log.None? then Raises(UndefinedLogMessage)
          else if log.value.positionOpen then Returns(())
          else Guarded(cfg, price, log.value, env, o).out;
        var rest: Trace<Log> := if Proceeds(cfg, log, o) then Guarded(cfg, price, log.value, env, o).effects else Quiet();
        Step(out, Then(p.effects, rest))
  }

  /** A balance read that throws, or a balance formatBalance cannot format
      (10^21 raw units or more), rejects buy before anything else happens. */
  lemma BuyReadFails(cfg: Config, price: string, log: Option<Log>, env: Env, o: BuyOracle)
    requires !Formats(o.balance)
    ensures Buy(cfg, price, log, env, o) ==
      Step(Raises(if o.balance.ReadFails? then o.balance.message else BigNumberMessage), Quiet())
  {
  }

  /** Once the balance is read and formatted, a route is requested for the
      strategy's share of it, whatever the gates later decide, unless that
      share does not convert to raw units; before that, none is. */
  lemma BuyRequestsRoute(cfg: Config, price: string, log: Option<Log>, env: Env, o: BuyOracle)
    ensures Buy(cfg, price, log, env, o).effects.requests ==
      if Formats(o.balance)
      then RouteRequests(cfg.stablecoin, cfg.token, GetBuyAmount(Formatted(cfg, o), cfg.size), env.nowMs)
      else []
  {
  }

  /** The error reports of a buy, in order: the conflict, the routing failure,
      what executeRoute tracked, and the BUY entry of the catch block. */
  lemma BuyErrors(cfg: Config, price: string, log: Option<Log>, env: Env, o: BuyOracle)
    ensures Buy(cfg, price, log, env, o).effects.errors ==
      if !Formats(o.balance) then [] else
      (if log.Some? && log.value.positionOpen then [ErrorReport(OrderConflict, ConflictMessage, env.chain, None)] else []) +
      (if RouteError(cfg.stablecoin, TradeAmount(cfg, o), o.router).Some?
       then [ErrorReport(GenRoute, RouteError(cfg.stablecoin, TradeAmount(cfg, o), o.router).value, env.chain, None)] else []) +
      (if Proceeds(cfg, log, o)
       then Execution(cfg, env, o).effects.errors +
         (if Fails(Execution(cfg, env, o), o.resync)
          then [ErrorReport(BuyError, FailureMessage(Execution(cfg, env, o), o.resync), env.chain, None)] else [])
       else [])
  {
    if Formats(o.balance) {
      var p := Prelude(cfg, log, env, o);
      if !Proceeds(cfg, log, o) {
        assert p.effects.errors + [] == p.effects.errors;
      }
    }
  }

  /** executeRoute never tracks an ORDER_CONFLICT. */
  lemma ExecutionTracksNoConflict(cfg: Config, env: Env, o: BuyOracle)
    requires o.balance.Read? && o.router.Found?
    ensures CountKind(Execution(cfg, env, o).effects.errors, OrderConflict) == 0
  {
    var a := GetTokenTransferApproval<Log>(cfg.stablecoin, TradeAmount(cfg, o), env, o.approval);
    var swapFail := if ApprovalGranted(cfg.stablecoin, TradeAmount(cfg, o), env, o.approval) && o.swap.reply.SendFails?
      then [ErrorReport(ExecRoute, o.swap.reply.message, env.chain, None)] else [];
    CountKindAppend(a.effects.errors, swapFail, OrderConflict);
  }

  /** Exactly one ORDER_CONFLICT entry when the balance was read and
      formatted and a position is already open, none otherwise; an
      insufficient balance tracks nothing of that kind. */
  lemma BuyConflictTrackedOnce(cfg: Config, price: string, log: Option<Log>, env: Env, o: BuyOracle)
    ensures CountKind(Buy(cfg, price, log, env, o).effects.errors, OrderConflict) ==
      if Formats(o.balance) && log.Some? && log.value.positionOpen then 1 else 0
  {
    BuyErrors(cfg, price, log, env, o);
    if !Formats(o.balance) {
      return;
    }
    var conflict := if log.Some? && log.value.positionOpen then [ErrorReport(OrderConflict, ConflictMessage, env.chain, None)] else [];
    var routing := if RouteError(cfg.stablecoin, TradeAmount(cfg, o), o.router).Some?
      then [ErrorReport(GenRoute, RouteError(cfg.stablecoin, TradeAmount(cfg, o), o.router).value, env.chain, None)] else [];
    if Proceeds(cfg, log, o) {
      var e := Execution(cfg, env, o);
      var caught := if Fails(e, o.resync) then [ErrorReport(BuyError, FailureMessage(e, o.resync), env.chain, None)] else [];
      ExecutionTracksNoConflict(cfg, env, o);
      ConflictCount(Buy(cfg, price, log, env, o).effects.errors, conflict, routing, e.effects.errors, caught, true);
    } else {
      ConflictCount(Buy(cfg, price, log, env, o).effects.errors, conflict, routing, [], [], false);
    }
  }

  /** Nothing is submitted, saved or announced unless the gate holds: a
      route, a balance above the minimum, and a log showing no open position. */
  lemma BuyGate(cfg: Config, price: string, log: Option<Log>, env: Env, o: BuyOracle)
    ensures !Proceeds(cfg, log, o) ==>
      Buy(cfg, price, log, env, o).effects.txs == [] && Buy(cfg, price, log, env, o).effects.logs == [] &&
      Buy(cfg, price, log, env, o).effects.trades == [] && Buy(cfg, price, log, env, o).effects.alerts == []
    ensures Proceeds(cfg, log, o) ==> Buy(cfg, price, log, env, o).effects.txs == Execution(cfg, env, o).effects.txs
  {
  }

  /** Reading `positionOpen` of a missing log is a TypeError that rejects buy,
      but only once the route and the balance have passed; a balance that
      cannot be formatted has already rejected it. */
  lemma BuyUndefinedLog(cfg: Config, price: string, env: Env, o: BuyOracle)
    requires o.balance.Read?
    ensures Buy(cfg, price, None, env, o).out.Raises? <==>
      Unformattable(o.balance.raw) || (HasRoute(cfg, o) && Formatted(cfg, o) > cfg.min)
    ensures Buy(cfg, price, None, env, o).out.Raises? ==>
      Buy(cfg, price, None, env, o).out.message ==
        (if Unformattable(o.balance.raw) then BigNumberMessage else UndefinedLogMessage)
  {
  }

  /** A buy that passed the gate and whose execution came back without a hash
      returns quietly: no log, no trade, no alert. */
  lemma BuyWithoutHash(cfg: Config, price: string, log: Option<Log>, env: Env, o: BuyOracle)
    requires Proceeds(cfg, log, o)
    requires Execution(cfg, env, o).out.Returns? && Execution(cfg, env, o).out.value.hash.None?
    ensures Buy(cfg, price, log, env, o).out == Returns(())
    ensures Buy(cfg, price, log, env, o).effects.logs == [] && Buy(cfg, price, log, env, o).effects.trades == []
    ensures Buy(cfg, price, log, env, o).effects.alerts == []
  {
  }

  /** Settlement: exactly when the gate holds, execution returned a hash
      (whatever its state) and the balances were re-read, buy saves the
      opened position and one Buy trade whose out amount is the trade amount. */
  lemma BuySettlement(cfg: Config, price: string, log: Option<Log>, env: Env, o: BuyOracle)
    ensures Buy(cfg, price, log, env, o).effects.logs ==
      if Proceeds(cfg, log, o) && Settles(Execution(cfg, env, o), o.resync)
      then [Opened(log.value, price, env.now, Balances(cfg, o.resync).stable, Balances(cfg, o.resync).token)] else []
    ensures |Buy(cfg, price, log, env, o).effects.trades| == |Buy(cfg, price, log, env, o).effects.logs| <= 1
    ensures forall t | t in Buy(cfg, price, log, env, o).effects.trades ::
      t.side == Side.Buy && t.price == price && t.key == o.tradeKey &&
      t.amountOut == Amount(TradeAmount(cfg, o), cfg.stablecoin.symbol) &&
      t.amountIn == Amount(Balances(cfg, o.resync).token, cfg.token.symbol) &&
      Some(t.txHash) == Execution(cfg, env, o).out.value.hash
  {
  }

  /** The alerts of a buy: the opened position when it settles, "Buy order
      failed" when the try block throws, nothing otherwise. */
  lemma BuyAlerts(cfg: Config, price: string, log: Option<Log>, env: Env, o: BuyOracle)
    ensures Buy(cfg, price, log, env, o).effects.alerts ==
      if !Proceeds(cfg, log, o) then []
      else if Settles(Execution(cfg, env, o), o.resync)
      then [PositionOpened(price, Balances(cfg, o.resync).token, Execution(cfg, env, o).out.value.hash)]
      else if Fails(Execution(cfg, env, o), o.resync) then [BuyOrderFailed]
      else []
  {
  }

  /** buy rejects only when reading or formatting the balance throws, or
      when the log is missing at the gate; failures inside the try block are
      caught. */
  lemma BuyOutcome(cfg: Config, price: string, log: Option<Log>, env: Env, o: BuyOracle)
    ensures Buy(cfg, price, log, env, o).out.Raises? <==>
      !Formats(o.balance) || (HasRoute(cfg, o) && Formatted(cfg, o) > cfg.min && log.None?)
    ensures Buy(cfg, price, log, env, o).out.Polling? <==>
      Proceeds(cfg, log, o) && Execution(cfg, env, o).out.Polling?
  {
  }

  /** A buy that does not settle leaves the stored position as it was. */
  lemma UnsettledBuyKeepsLog(cfg: Config, price: string, log: Option<Log>, env: Env, o: BuyOracle, d: Docs<Log>, disk: Disk)
    requires !Proceeds(cfg, log, o) || !Settles(Execution(cfg, env, o), o.resync)
    ensures Apply(d, Buy(cfg, price, log, env, o).effects, env.now, disk).log == d.log
  {
    BuySettlement(cfg, price, log, env, o);
  }

  /** After a settled buy that left a token balance above dust on a writable
      disk, the next buy, reading the stored position `next`, finds the position open: it tracks one conflict and
      submits, saves and records nothing. */
  lemma SecondBuyConflicts(cfg: Config, price: string, l: Log, env: Env, o: BuyOracle, d: Docs<Log>, disk: Disk, next: Option<Log>, price2: string, env2: Env, o2: BuyOracle)
    requires Proceeds(cfg, Some(l), o) && Settles(Execution(cfg, env, o), o.resync)
    requires Balances(cfg, o.resync).token > 0.0
    requires disk.logWritable
    requires next == GetLog(Apply(d, Buy(cfg, price, Some(l), env, o).effects, env.now, disk).log)
    ensures next.Some? && next.value.positionOpen
    ensures Buy(cfg, price2, next, env2, o2).effects.txs == [] && Buy(cfg, price2, next, env2, o2).effects.logs == []
    ensures Buy(cfg, price2, next, env2, o2).effects.trades == []
    ensures CountKind(Buy(cfg, price2, next, env2, o2).effects.errors, OrderConflict) ==
      if Formats(o2.balance) then 1 else 0
  {
    var fx := Buy(cfg, price, Some(l), env, o).effects;
    BuySettlement(cfg, price, Some(l), env, o);
    ApplyLog(d, fx, env.now, disk);
    assert next == Some(Opened(l, price, env.now, Balances(cfg, o.resync).stable, Balances(cfg, o.resync).token));
    BuyGate(cfg, price2, next, env2, o2);
    BuyConflictTrackedOnce(cfg, price2, next, env2, o2);
  }

  /** The worked example: a closed position, 100 of a 6-decimal stablecoin,
      minimum 50, size 0.5, an allowance already covering 50, and a confirmed
      swap after which the token balance is above dust.  The buy spends 50,
      opens the position and records exactly one Buy trade. */
  lemma BuyScenario(stablecoin: Token, token: Token, l: Log, env: Env, o: BuyOracle)
    requires stablecoin.decimals == 6 && !l.positionOpen && env.providerPresent
    requires o.balance == Read(100_000_000) && o.router.Found?
    requires o.approval.allowance == Read(50_000_000)
    requires o.swap.reply.Broadcast? && ReceiptFirst(o.swap.polls)
    requires Rereads(o.resync) && o.resync.tokenRaw * DustDenominator > Pow10(token.decimals)
    ensures TradeAmount(ExampleConfig(stablecoin, token), o) == 50.0
    ensures |Buy(ExampleConfig(stablecoin, token), "1800", Some(l), env, o).effects.logs| == 1
    ensures Buy(ExampleConfig(stablecoin, token), "1800", Some(l), env, o).effects.logs[0].positionOpen
    ensures |Buy(ExampleConfig(stablecoin, token), "1800", Some(l), env, o).effects.trades| == 1
    ensures Buy(ExampleConfig(stablecoin, token), "1800", Some(l), env, o).effects.trades[0].side == Side.Buy
    ensures Buy(ExampleConfig(stablecoin, token), "1800", Some(l), env, o).effects.trades[0].amountOut.value == 50.0
  {
    var cfg := ExampleConfig(stablecoin, token);
    Pow10Six();
    assert Scale(100_000_000, 6) == 100.0;
    assert Formatted(cfg, o) == 100.0;
    assert TradeAmount(cfg, o) == 50.0;
    FromReadableOfScale(50_000_000, 6);
    assert Scale(50_000_000, 6) == 50.0;
    assert HasRoute(cfg, o);
    AllowanceCoversMeaning(50_000_000, 6, 50.0);
    assert Covered(stablecoin, 50.0, o.approval);
    assert Proceeds(cfg, Some(l), o);
    assert Settles(Execution(cfg, env, o), o.resync);
    BuySettlement(cfg, "1800", Some(l), env, o);
  }
}

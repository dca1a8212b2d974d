/** The signal handler of the older revision (trade.ts): no gas check, just
    buy on BUY and sell on SELL. */
module LegacyTradeRoute {
  import opened Common
  import opened Domain
  import opened LegacyBuyOrder
  import opened LegacySellOrder
  import TradeRoute

  /** What one run may observe: the answers of whichever order it dispatches to. */
  datatype LegacyRunOracle = LegacyRunOracle(buy: LegacyBuyOracle, sell: LegacySellOracle)

  /** run(type, price). */
  function LegacyRun(kind: string, price: Price, st: LegacyStrategy, log: Option<LegacyLog>, env: Env, o: LegacyRunOracle): (r: Step<Unit, LegacyLog>)
    ensures r.effects.orders != [] ==> kind == TradeRoute.BuySignal || kind == TradeRoute.SellSignal
    ensures r.effects.alerts != [] ==> r.effects.orders != []
  {
    if kind == TradeRoute.BuySignal then
      var b := LegacyBuy(st, price, log, env, o.buy);
      Step(b.out, Then(Dispatch(Side.Buy, price.text), b.effects))
    else if kind == TradeRoute.SellSignal then
      var s := LegacySell(price, log, env, o.sell);
      Step(s.out, Then(Dispatch(Side.Sell, price.text), s.effects))
    else Step(Returns(()), Quiet())
  }

  /** A BUY signal runs buy once and does exactly what that buy does; sell
      is never touched. */
  lemma LegacyRunBuy(price: Price, st: LegacyStrategy, log: Option<LegacyLog>, env: Env, o: LegacyRunOracle)
    ensures LegacyRun(TradeRoute.BuySignal, price, st, log, env, o).out == LegacyBuy(st, price, log, env, o.buy).out
    ensures LegacyRun(TradeRoute.BuySignal, price, st, log, env, o).effects ==
      Then(Dispatch(Side.Buy, price.text), LegacyBuy(st, price, log, env, o.buy).effects)
  {
  }

  /** A SELL signal runs sell once and does exactly what that sell does; buy
      is never touched. */
  lemma LegacyRunSell(price: Price, st: LegacyStrategy, log: Option<LegacyLog>, env: Env, o: LegacyRunOracle)
    ensures LegacyRun(TradeRoute.SellSignal, price, st, log, env, o).out == LegacySell(price, log, env, o.sell).out
    ensures LegacyRun(TradeRoute.SellSignal, price, st, log, env, o).effects ==
      Then(Dispatch(Side.Sell, price.text), LegacySell(price, log, env, o.sell).effects)
  {
  }

  /** Which orders a run dispatches: exactly the one the type names, whatever
      the wallet holds, and never the gas alert. */
  lemma LegacyRunDispatches(kind: string, price: Price, st: LegacyStrategy, log: Option<LegacyLog>, env: Env, o: LegacyRunOracle)
    ensures LegacyRun(kind, price, st, log, env, o).effects.orders ==
      if kind == TradeRoute.BuySignal then [Order(Side.Buy, price.text)]
      else if kind == TradeRoute.SellSignal then [Order(Side.Sell, price.text)]
      else []
    ensures InsufficientGas !in LegacyRun(kind, price, st, log, env, o).effects.alerts
  {
    if kind == TradeRoute.BuySignal {
      LegacyBuyAlerts(st, price, log, env, o.buy);
    } else if kind == TradeRoute.SellSignal {
      LegacySellSilent(price, log, env, o.sell);
    }
  }
}

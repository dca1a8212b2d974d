/** The signal handler of the current revision (src/api/routes/trade.ts):
    refuse to trade without enough native balance for gas, otherwise hand
    the price to buy or to sell according to the signal's type. */
module TradeRoute {
  import opened Common
  import opened Domain
  import opened Amounts
  import opened Orders
  import BuyOrder
  import SellOrder

  const BuySignal := "BUY"
  const SellSignal := "SELL"

  /** What one run may observe: the native balance read and the answers of
      whichever order it dispatches to. */
  datatype RunOracle = RunOracle(gas: Reading, buy: BuyOrder.BuyOracle, sell: SellOrder.SellOracle)

  /** run(type, price).  `nativeDecimals` are the decimals of the chain's
      native token; `log` is what getLog returns inside the order. */
  function Run(kind: string, price: string, cfg: Config, nativeDecimals: nat, log: Option<Log>, env: Env, o: RunOracle): (r: Step<Unit, Log>)
    ensures r.effects.orders != [] ==> HasGasMoney(o.gas, nativeDecimals) == Returns(true)
    ensures r.effects.orders != [] ==> kind == BuySignal || kind == SellSignal
  {
    var g := HasGasMoney(o.gas, nativeDecimals);
    if !g.Returns? then Step(Raises(g.message), Quiet())
    else if !g.value then Step(Returns(()), Alerted(InsufficientGas))
    else if kind == BuySignal then
      var b := BuyOrder.Buy(cfg, price, log, env, o.buy);
      Step(b.out, Then(Dispatch(Side.Buy, price), b.effects))
    else if kind == SellSignal then
      var s := SellOrder.Sell(cfg, price, log, env, o.sell);
      Step(s.out, Then(Dispatch(Side.Sell, price), s.effects))
    else Step(Returns(()), Quiet())
  }

  /** When the native balance cannot be read, or is 10^21 raw units or more
      and formatBalance throws, run rejects with that error before anything
      else happens. */
  lemma RunGasFails(kind: string, price: string, cfg: Config, nativeDecimals: nat, log: Option<Log>, env: Env, o: RunOracle)
    requires !Formats(o.gas)
    ensures Run(kind, price, cfg, nativeDecimals, log, env, o) ==
      Step(Raises(if o.gas.ReadFails? then o.gas.message else BigNumberMessage), Quiet())
  {
  }

  /** Below one whole native token, run sends the gas alert and dispatches
      nothing. */
  lemma RunWithoutGas(kind: string, price: string, cfg: Config, nativeDecimals: nat, log: Option<Log>, env: Env, o: RunOracle)
    requires o.gas.Read? && o.gas.raw < Pow10(nativeDecimals) && !Unformattable(o.gas.raw)
    ensures Run(kind, price, cfg, nativeDecimals, log, env, o) == Step(Returns(()), Quiet().(alerts := [InsufficientGas]))
  {
  }

  /** With enough gas, a BUY signal runs buy once with the signal's price and
      does exactly what that buy does. */
  lemma RunBuy(price: string, cfg: Config, nativeDecimals: nat, log: Option<Log>, env: Env, o: RunOracle)
    requires o.gas.Read? && o.gas.raw >= Pow10(nativeDecimals) && !Unformattable(o.gas.raw)
    ensures Run(BuySignal, price, cfg, nativeDecimals, log, env, o).out == BuyOrder.Buy(cfg, price, log, env, o.buy).out
    ensures Run(BuySignal, price, cfg, nativeDecimals, log, env, o).effects ==
      Then(Dispatch(Side.Buy, price), BuyOrder.Buy(cfg, price, log, env, o.buy).effects)
  {
  }

  /** With enough gas, a SELL signal runs sell once with the signal's price
      and does exactly what that sell does. */
  lemma RunSell(price: string, cfg: Config, nativeDecimals: nat, log: Option<Log>, env: Env, o: RunOracle)
    requires o.gas.Read? && o.gas.raw >= Pow10(nativeDecimals) && !Unformattable(o.gas.raw)
    ensures Run(SellSignal, price, cfg, nativeDecimals, log, env, o).out == SellOrder.Sell(cfg, price, log, env, o.sell).out
    ensures Run(SellSignal, price, cfg, nativeDecimals, log, env, o).effects ==
      Then(Dispatch(Side.Sell, price), SellOrder.Sell(cfg, price, log, env, o.sell).effects)
  {
  }

  /** Which orders a run dispatches: none when the native balance cannot be
      read or formatted, none without gas, none for an unknown
      type, otherwise exactly the one the type names, with the price
      unchanged. */
  lemma RunDispatches(kind: string, price: string, cfg: Config, nativeDecimals: nat, log: Option<Log>, env: Env, o: RunOracle)
    ensures Run(kind, price, cfg, nativeDecimals, log, env, o).effects.orders ==
      if !Formats(o.gas) || o.gas.raw < Pow10(nativeDecimals) then []
      else if kind == BuySignal then [Order(Side.Buy, price)]
      else if kind == SellSignal then [Order(Side.Sell, price)]
      else []
    ensures |Run(kind, price, cfg, nativeDecimals, log, env, o).effects.orders| <= 1
  {
  }
}

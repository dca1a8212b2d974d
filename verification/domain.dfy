/** The values the trading bot passes around: tokens, routes, prices, the
    position logs of both revisions, and the trace of observable effects. */
module Domain {
  import opened Common

  /** An ERC-20 token as the bot uses it: its symbol and its decimals. */
  datatype Token = Token(symbol: string, decimals: nat)

  /** A route from the routing service: opaque calldata and native value. */
  datatype Route = Route(calldata: string, value: nat)

  /** Swap options handed to the router: slippage as a fraction and a deadline in seconds. */
  datatype SwapOptions = SwapOptions(slippageNumerator: nat, slippageDenominator: nat, deadline: int)

  /** One call to the routing service. */
  datatype RouteRequest = RouteRequest(tokenIn: Token, tokenOut: Token, amountIn: real, rawAmountIn: int, options: SwapOptions)

  /** The signal's price string together with the number `Number(text)` reads from it. */
  datatype Price = Price(text: string, value: real)

  datatype Side = Buy | Sell

  /** An order dispatched by the signal handler, with the signal's price. */
  datatype Order = Order(side: Side, price: string)

  /** Two formatted balances read together: the stablecoin (USDC) one and
      the token (WETH) one. */
  datatype Holdings = Holdings(stable: real, token: real)

  /** The `type` field of an error-log entry. */
  datatype ErrorKind = GenRoute | ExecRoute | TokenApproval | OrderConflict | BuyError | SellError

  /** The object handed to trackError; `time` overrides the generated timestamp when present. */
  datatype ErrorReport = ErrorReport(kind: ErrorKind, message: string, chain: Option<string>, time: Option<string>)

  /** An amount with its token symbol, as written in a trade record ("50 USDC"). */
  datatype Amount = Amount(value: real, symbol: string)

  datatype TradeRecord = TradeRecord(
    key: string, side: Side, price: string, date: string,
    amountIn: Amount, amountOut: Amount, txHash: string, chain: Option<string>)

  /** Telegram messages; the explorer link is represented by the transaction hash. */
  datatype AlertMsg =
    | InsufficientGas
    | BuyOrderFailed
    | SellOrderFailed
    | PositionOpened(price: string, tokenBalance: real, link: Option<string>)
    | TokensSold(sold: Amount, price: string, txHash: string)

  /** The position document of the current revision (logs/log.json). */
  datatype Log = Log(
    positionOpen: bool,
    stablecoinBalance: real,
    tokenBalance: real,
    lastTrade: Option<string>,
    lastTradeTime: Option<string>,
    lastTradePrice: Option<string>,
    pnl: Option<real>)

  /** The position document of the older revision (log.json), with a numeric price and accumulated P&L. */
  datatype LegacyLog = LegacyLog(
    positionOpen: bool,
    usdcBalance: real,
    wethBalance: real,
    lastTrade: Option<string>,
    lastTradeTime: Option<string>,
    lastTradePrice: Option<Price>,
    pnl: Option<real>)

  /** A transaction the bot hands to the wallet: an ERC-20 approve of a raw
      amount for the swap router, or a swap along a route. */
  datatype Tx = Approve(token: Token, rawAmount: int) | Swap(route: Route)

  /** Everything a call does that is visible outside it, one channel per
      observer, each channel in the order the code produces it: the orders
      dispatched with their price, the requests to the routing service, the
      transactions handed to the wallet, the reports handed to trackError,
      the Telegram alerts, the position documents handed to saveLog, and the
      trade records.  `L` is the position document type of the revision. */
  datatype Trace<L> = Trace(
    orders: seq<Order>,
    requests: seq<RouteRequest>,
    txs: seq<Tx>,
    errors: seq<ErrorReport>,
    alerts: seq<AlertMsg>,
    logs: seq<L>,
    trades: seq<TradeRecord>)

  /** The trace of a call that has no visible effect. */
  function Quiet<L>(): (t: Trace<L>)
    ensures t.orders == [] && t.requests == [] && t.txs == [] && t.errors == []
    ensures t.alerts == [] && t.logs == [] && t.trades == []
  {
    Trace([], [], [], [], [], [], [])
  }

  /** One call after another: every channel of `a`, then the same channel of `b`. */
  function Then<L>(a: Trace<L>, b: Trace<L>): (c: Trace<L>)
    ensures c.orders == a.orders + b.orders && c.requests == a.requests + b.requests
    ensures c.txs == a.txs + b.txs && c.errors == a.errors + b.errors
    ensures c.alerts == a.alerts + b.alerts && c.logs == a.logs + b.logs
    ensures c.trades == a.trades + b.trades
  {
    Trace(a.orders + b.orders, a.requests + b.requests, a.txs + b.txs, a.errors + b.errors,
          a.alerts + b.alerts, a.logs + b.logs, a.trades + b.trades)
  }

  /** Sequencing a quiet call changes nothing, on either side. */
  lemma ThenQuiet<L>(a: Trace<L>)
    ensures Then(a, Quiet()) == a && Then(Quiet(), a) == a
  {
    assert Then(a, Quiet()).orders == a.orders;
    assert Then(Quiet(), a).orders == a.orders;
  }

  /** Grouping of sequenced calls does not matter. */
  lemma ThenAssoc<L>(a: Trace<L>, b: Trace<L>, c: Trace<L>)
    ensures Then(Then(a, b), c) == Then(a, Then(b, c))
  {
    assert Then(Then(a, b), c).orders == Then(a, Then(b, c)).orders;
  }

  /** How many reports of one kind a channel of reports holds. */
  function CountKind(rs: seq<ErrorReport>, k: ErrorKind): nat {
    if |rs| == 0 then 0 else (if rs[0].kind == k then 1 else 0) + CountKind(rs[1..], k)
  }

  /** Counting over two channels one after the other adds up. */
  lemma {:induction false} CountKindAppend(a: seq<ErrorReport>, b: seq<ErrorReport>, k: ErrorKind)
    ensures CountKind(a + b, k) == CountKind(a, k) + CountKind(b, k)
    decreases |a|
  {
    if |a| == 0 {
      assert a + b == b;
    } else {
      assert (a + b)[1..] == a[1..] + b;
      CountKindAppend(a[1..], b, k);
    }
  }

  /** The reports of a buy or a sell are the conflict check's, then route
      generation's, then, past the gate, execution's and the catch block's;
      when only the first can be an ORDER_CONFLICT, the count is its count. */
  lemma ConflictCount(errs: seq<ErrorReport>, conflict: seq<ErrorReport>, routing: seq<ErrorReport>, exec: seq<ErrorReport>, caught: seq<ErrorReport>, proceeds: bool)
    requires errs == conflict + routing + (if proceeds then exec + caught else [])
    requires CountKind(routing, OrderConflict) == 0 && CountKind(exec, OrderConflict) == 0
    requires CountKind(caught, OrderConflict) == 0
    ensures CountKind(errs, OrderConflict) == CountKind(conflict, OrderConflict)
  {
    CountKindAppend(conflict, routing, OrderConflict);
    CountKindAppend(exec, caught, OrderConflict);
    CountKindAppend(conflict + routing, if proceeds then exec + caught else [], OrderConflict);
  }

  /** Single-effect traces, one per channel. */
  function Dispatch<L>(side: Side, price: string): Trace<L> {
    Quiet().(orders := [Order(side, price)])
  }

  function Requested<L>(r: RouteRequest): Trace<L> {
    Quiet().(requests := [r])
  }

  function Submitted<L>(tx: Tx): Trace<L> {
    Quiet().(txs := [tx])
  }

  function Tracked<L>(report: ErrorReport): Trace<L> {
    Quiet().(errors := [report])
  }

  function Alerted<L>(a: AlertMsg): Trace<L> {
    Quiet().(alerts := [a])
  }

  function SavedLog<L>(x: L): Trace<L> {
    Quiet().(logs := [x])
  }

  function SavedTrade<L>(t: TradeRecord): Trace<L> {
    Quiet().(trades := [t])
  }

  /** The result of one modelled call: its outcome and the effects it had. */
  datatype Step<+T, L> = Step(out: Outcome<T>, effects: Trace<L>)

  /** The environment a call runs in: the chain's display name
      (activeChain.displayName, which may be undefined), whether the wallet has a provider, the
      wall-clock time as the bot prints it, and Date.now() in milliseconds. */
  datatype Env = Env(chain: Option<string>, providerPresent: bool, now: string, nowMs: int)
}

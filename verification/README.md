# Trading-bot decision logic in Dafny

This project models the decision core of argilac-cli. The bot holds a single
spot position: it receives BUY and SELL signals and swaps between a
stablecoin and a speculative token through the Uniswap routing service. It
keeps a position log, an error log and a trade history as JSON files, and
sends Telegram alerts. The repository has two revisions, and both are
modelled as separate modules:

- the current one under `src/`, where the tokens and the chain come from a
  config file and executions are gated on a transaction hash;
- an older one under `libs/` and `trade.ts`, which is USDC/WETH only, runs
  no gas check, settles whatever the swap returned, and accumulates P&L.

Every asynchronous operation is a pure function. Its arguments are what it
reads: balances, the position log, the router's reply, the wallet's answers,
and the receipts returned by each poll. Its result is a `Step` made of two
parts:

- an `Outcome`: it returns, it throws a message, or it is still polling;
- a `Trace` of what it did, one channel per observer. The channels are:
  - orders dispatched;
  - requests to the router;
  - transactions handed to the wallet;
  - reports handed to `trackError`;
  - Telegram alerts;
  - position documents handed to `saveLog`;
  - trade records.

`Store.Apply` folds a trace into the two JSON documents, so a property about
what is stored after one call is a property of that fold.

Modules, in dependency order:

| module | models |
|---|---|
| `Common`, `Domain` | outcomes, tokens, routes, logs, error reports, alerts, traces |
| `Amounts`, `Units` | formatBalance, the gas threshold, getBuyAmount, allowance scaling, fromReadableAmount, formatUnits/toReadableAmount, sendEntireEthBalance |
| `Provider`, `LegacyProvider` | sendTransactionViaWallet and its receipt loop, in both revisions |
| `Routing`, `LegacyRouting` | generateRoute, getTokenTransferApproval, executeRoute, in both revisions |
| `Store` | getLog, saveLog, getErrorLog, trackError |
| `Orders`, `BuyOrder`, `SellOrder`, `TradeRoute` | the current buy, sell and run |
| `LegacyUtils`, `LegacyBuyOrder`, `LegacySellOrder`, `LegacyTradeRoute` | the older helpers, buy, sell and run |

Code behaviour the model keeps:

- getLog returns undefined when the file is missing or unparsable. Reading `positionOpen` of it is a TypeError:
  - the current buy and sell throw it only after a route was found and the
    balance passed;
  - the older ones throw it before any route is requested.
- A route is requested even when the trade has already been refused, for
  instance when the position is already open or the balance is too low.
- In the current revision, getTokenTransferApproval approves the trade amount
  exactly the trade amount (`tradeAmount || 500`). The older revision approves a
  fixed 2000 tokens and never reads the allowance.
- In both revisions, the approval's `return sendTransaction(...)` inside the
  try is not awaited. A rejected approve send therefore escapes that catch, and
  no TOKEN_APPROVAL entry is tracked. The rejection reaches the catch of the
  order that called executeRoute, in both revisions. There it is tracked as
  BUY or SELL by the current buy and sell and by the older buy (libs/buy.ts:45),
  and swallowed by the older sell (libs/sell.ts:45-48).
- fromReadableAmount hands parseUnits the text of a JavaScript number, which
  is in exponent form for a non-zero magnitude below 1e-6 or from 1e21.
  parseUnits rejects that text with "invalid decimal value". In the current
  revision, generateRoute catches the error as a GEN_ROUTE entry and requests
  no route, and getTokenTransferApproval catches it as a TOKEN_APPROVAL entry.
  In the older revision, generateRoute has no catch, so the order rejects. A
  sell of 10^11 wei of an 18-decimal token (1e-7 tokens) is above dust but
  fails this way.
- The current buy and sell settle when executeRoute returns a hash, whatever
  the state, so a reverted swap with a hash settles. The older ones settle
  whatever executeRoute returned, even without a swap.
- getTokenBalance returns `Number(balance)`, and formatBalance hands
  formatUnits the text of that number. From 10^21 raw units that text is in
  exponent form ("1e+21"), and ethers rejects it with "invalid BigNumber
  string". So the gas check, the first balance read of every order and the
  re-read after a swap throw on such a balance, in both revisions.
- trackError appends at the end, so the error log is oldest-first.
- The receipt loop polls without bound. When the modelled polls run out
  without a receipt or an error, the outcome is `Polling`.
- The current sell computes no P&L and saves none. The older sell sends no
  alert at all.

## Model

| member | source | states |
|---|---|---|
| Amounts.BalanceValue | src/utils/index.ts:83-90 | the number formatBalance returns for a formattable balance: zero (dust), or above 1e-15 and then exactly raw / 10^decimals; FormatBalance, FormatBalanceZeroIff and FormatBalanceMonotone state the rest |
| Amounts.FormatBalance | src/utils/index.ts:69-91 | formatBalance of a raw balance that getTokenBalance turned into a Number throws "invalid BigNumber string" exactly when the magnitude is at least 10^21 (the Number prints as "1e+21"); otherwise it returns zero or a value above 1e-15, and a non-zero value is raw / 10^decimals; libs/utils.ts:29-41 is the same code |
| Amounts.UnformattableIsExponentForm | src/utils/index.ts:69-83 | the balances formatBalance rejects are exactly the whole numbers whose Number text is in exponent form |
| Amounts.FormatBalanceZeroIff | src/utils/index.ts:83-88 | a formatted value is nulled as dust exactly when raw * 10^15 <= 10^decimals |
| Amounts.FormatBalanceMonotone | src/utils/index.ts:83-90 | more raw balance never formats to a smaller value |
| Amounts.HasGasMoney | src/utils/index.ts:119-126 | a failing read throws its error and a balance of 10^21 raw units or more throws "invalid BigNumber string"; otherwise there is gas money exactly when the raw native balance is at least one whole token (10^decimals); libs/utils.ts:59-66 is the same test |
| Amounts.GasThreshold | src/utils/index.ts:122-123 | formatted balance >= 1 is equivalent to raw >= 10^decimals, since dust-nulling never affects the test |
| Amounts.GetBuyAmount | src/utils/index.ts:140-144 | the size is clamped to 1: the amount is the whole balance for sizes >= 1, balance * size otherwise, and never more than a non-negative balance |
| Amounts.AllowanceCoversMeaning | src/utils/index.ts:153-159 | the formatted allowance covers a trade size exactly when the raw allowance is at least the size times 10^decimals |
| Amounts.FromReadableAmount | src/utils/index.ts:23-26 | more than 100 decimals throws toFixed's RangeError; otherwise the only exception is parseUnits' "invalid decimal value"; a converted amount, scaled back, is the amount rounded to `decimals` places |
| Amounts.FromReadableConverts | src/utils/index.ts:23-26 | the conversion succeeds exactly when there are at most 100 decimals and the rounded amount does not print in exponent form (it is zero, or its magnitude is at least 1e-6 and below 1e21); it then gives the rounded scaled amount |
| Amounts.FromReadableWithinHalf | src/utils/index.ts:23-26 | when the conversion succeeds, the raw amount is within half a unit of the scaled amount |
| Amounts.FromReadableOfScale | src/utils/index.ts:23-26 | a formatted raw balance converts back to the same raw amount, except that it throws "invalid decimal value" when it prints in exponent form and the RangeError above 100 decimals |
| Amounts.TinyBalanceThrows | src/utils/index.ts:23-26 | 10^11 raw units of an 18-decimal token format to 1e-7, which the conversion rejects with "invalid decimal value" |
| Amounts.RoundHalfAwayBounds | src/utils/index.ts:24 | toFixed rounds to the nearest integer with ties away from zero |
| Amounts.SweepTransfer | src/utils/index.ts:168-192 | an empty wallet or one below the 21000-gas cost throws with the source's messages; otherwise the value sent plus the gas cost is the whole balance |
| Units.FormatUnits | src/utils/index.ts:36 | ethers' formatUnits as toReadableAmount calls it (libs/utils.ts:14 too): non-empty text that starts with '-' exactly for a negative amount and with a digit otherwise; FormatUnitsRoundTrip states that parseUnits reads it back to the same amount |
| Units.ToReadableAmount | src/utils/index.ts:35-37 | at most four characters, a prefix of formatUnits, and all of it when formatUnits is short; libs/utils.ts:13-15 is the same code |
| Units.FormatUnitsRoundTrip | libs/utils.ts:9-15 | parseUnits reads the text of formatUnits back as the same raw amount, negative amounts included |
| Provider.AwaitReceipt | src/lib/provider.ts:163-178 | the receipt loop as a verdict on the sequence of poll answers: still waiting only when every poll was null, confirmed only when some poll gave a receipt, an error only when some poll failed; AwaitReceiptMeaning sharpens this to "which came first" |
| Provider.AwaitReceiptMeaning | src/lib/provider.ts:163-178 | the loop confirms exactly when a receipt comes before any poll error, fails exactly when an error comes first, and keeps waiting exactly when every poll is null |
| Provider.PollForReceipt | src/lib/provider.ts:163-175 | the imperative loop computes the same verdict, stopping at the first receipt or error, with every earlier poll null |
| Provider.SendViaWallet | src/lib/provider.ts:145-182 | a rejected send throws; without a provider the result is Failed with no hash; otherwise the result carries the hash and is Sent exactly when a receipt comes first |
| LegacyProvider.LegacySendViaWallet | libs/provider.ts:44-78 | the same classification returning a bare state: Sent exactly when a receipt comes first, Failed on the first poll error or without a provider |
| LegacyProvider.LegacyAgreesWithCurrent | libs/provider.ts:44-78 | both revisions classify every transaction identically; the current one only adds the hash |
| Routing.RouteOptions | src/lib/routing.ts:45-50 | slippage is 50/10000 and the deadline is floor(now/1000 + 1800) seconds |
| Routing.GenerateRoute | src/lib/routing.ts:31-72 | one router request for the converted amount exactly when the amount converts, none otherwise; a route exactly when it converts and the router finds one; a conversion or router exception becomes null plus one GEN_ROUTE report with its message; it never throws |
| Routing.TradeSize | src/lib/routing.ts:137 | the approval size is the trade amount, or 500 when it is zero |
| Routing.GetTokenTransferApproval | src/lib/routing.ts:119-171 | no provider gives Failed with no effect; a covering allowance gives Sent and submits nothing; otherwise one approve for the converted trade size; an allowance-read, conversion or build error gives Failed and one TOKEN_APPROVAL report, in that order of precedence; a rejected send escapes untracked |
| Routing.SubmitSwap | src/lib/routing.ts:97-114 | one swap submitted; a rejected send is caught as one EXEC_ROUTE report and yields Failed; a returned hash is the broadcast hash |
| Routing.ExecuteRoute | src/lib/routing.ts:74-117 | no wallet throws; the swap is submitted exactly when the approval came back Sent; the result is Sent exactly when approval and swap both confirm; it throws exactly without a wallet or when the approve send is rejected |
| Store.GetLog | src/lib/log.ts:28-39 | the stored document, or undefined when the file is unreadable |
| Store.SaveLog | src/lib/log.ts:47-53 | a write replaces the document whole, and the log read back is the one saved; a write that cannot open the file leaves it as it was |
| Store.GetErrorLog | src/lib/log.ts:59-70 | the stored entries, or an empty list when the file is unreadable |
| Store.Stamp | src/lib/log.ts:79-82 | the entry keeps the report's fields and takes the current time unless the report carries its own |
| Store.TrackError | src/lib/log.ts:76-88 | a write appends exactly one stamped entry at the end and keeps every earlier entry; a write that cannot open the file changes nothing |
| Store.TrackAllAppends | src/lib/log.ts:76-88 | tracking several reports appends their stamped entries in order after the existing ones |
| Store.Apply | src/lib/log.ts:47-88 | a trace with no saved logs leaves the position file alone, and one with no reports leaves the error file alone |
| Store.ApplyThen | src/lib/log.ts:47-88 | storing two calls' effects one after the other is storing their combined trace |
| Store.ApplyLog | src/lib/log.ts:47-53 | after a call, the position file holds the last log the call saved, or is unchanged when it saved none or the file could not be opened |
| Store.ApplyErrors | src/lib/log.ts:76-88 | after a call, the error file is the old entries followed by the call's stamped reports, or is unchanged when not writable |
| Orders.ExampleConfig | src/config/index.ts:42-46 | the example strategy: minimum 50, size 0.5 |
| Orders.Balances | src/utils/index.ts:98-112 | when both re-reads succeed and format, the resynced balances are what formatBalance returns for the raw reads, and the token balance is zero exactly when it is dust |
| Orders.Catch | src/lib/buy.ts:90-99 | an exception in the try block becomes one alert and one tracked report with the exception's message, and the order completes normally; anything else passes through |
| BuyOrder.Buy | src/lib/buy.ts:23-104 | buy(price) itself: it dispatches no order, and it submits a transaction or is left polling only when its gate holds; BuyReadFails through BuyScenario below state the rest of its contract |
| BuyOrder.Opened | src/lib/buy.ts:61-69 | the saved log keeps the earlier fields, sets positionOpen exactly when the resynced token balance is positive, and records the balances and the price |
| BuyOrder.Attempt | src/lib/buy.ts:54-89 | the try block throws exactly when execution throws or the resync after a hash fails; without a hash it does nothing further |
| BuyOrder.BuyReadFails | src/lib/buy.ts:31-32 | a failing balance read, or a balance formatBalance cannot format, rejects buy with that error and no effect |
| BuyOrder.BuyRequestsRoute | src/lib/buy.ts:31-51 | once the balance is read and formatted, one route is requested for getBuyAmount of it, whatever the gates later decide, unless that amount does not convert; before that, none is |
| BuyOrder.BuyErrors | src/lib/buy.ts:31-99 | no reports when the balance cannot be read or formatted; otherwise the reports in order: the conflict, the routing failure, executeRoute's reports, then the BUY entry when the try block throws |
| BuyOrder.BuyConflictTrackedOnce | src/lib/buy.ts:31-47 | exactly one ORDER_CONFLICT entry when the balance was read and formatted and a position is open, none otherwise |
| BuyOrder.BuyGate | src/lib/buy.ts:53 | nothing is submitted, saved, recorded or alerted unless a route exists, the balance exceeds the minimum and no position is open |
| BuyOrder.BuyUndefinedLog | src/lib/buy.ts:32-53 | without a log, buy rejects exactly when the balance cannot be formatted ("invalid BigNumber string") or the route and balance checks passed (the TypeError) |
| BuyOrder.BuyWithoutHash | src/lib/buy.ts:57 | an execution without a hash returns quietly: no log, trade or alert |
| BuyOrder.BuySettlement | src/lib/buy.ts:59-83 | exactly when the gate holds, a hash came back and the balances were re-read and formatted, buy saves the opened position and one Buy trade with the trade amount, the resynced balance and the hash |
| BuyOrder.BuyAlerts | src/lib/buy.ts:85-93 | the opened-position alert on settlement, "Buy order failed" when the try block throws, nothing otherwise |
| BuyOrder.BuyOutcome | src/lib/buy.ts:23-104 | buy rejects exactly when reading or formatting the balance throws, or the log is missing once the route and balance checks passed; it is still polling exactly when it passed the gate and execution is |
| BuyOrder.UnsettledBuyKeepsLog | src/lib/buy.ts:53-69 | a buy that does not settle leaves the stored position unchanged |
| BuyOrder.SecondBuyConflicts | src/lib/buy.ts:31-69 | after a settled buy with a token balance left, the next buy, once its balance formats, finds the position open, tracks one conflict, and submits, saves and records nothing |
| BuyOrder.BuyScenario | src/lib/buy.ts:49-83 | 100 USDC with minimum 50 and size 0.5 spends 50, opens the position and records one Buy trade of 50 |
| SellOrder.Sell | src/lib/sell.ts:17-98 | sell(price) itself: it dispatches no order, and it submits a transaction or is left polling only when its gate holds; SellReadFails through SecondSellConflicts below state the rest of its contract |
| SellOrder.Closed | src/lib/sell.ts:58-65 | the saved log is written from scratch: positionOpen exactly when tokens remain, the resynced balances, the price, and no P&L |
| SellOrder.Attempt | src/lib/sell.ts:48-83 | the try block throws exactly when execution throws or the resync after a hash fails |
| SellOrder.SellReadFails | src/lib/sell.ts:25-29 | a failing balance read (the token's first), or a balance formatBalance cannot format, rejects sell with that error and no effect |
| SellOrder.SellRequestsRoute | src/lib/sell.ts:25-45 | once both balances are read and formatted, one route is requested for the whole formatted token balance, unless that balance does not convert; before that, none is |
| SellOrder.SellErrors | src/lib/sell.ts:25-94 | no reports when a balance cannot be read or formatted; otherwise the reports in order: the conflict, the routing failure, executeRoute's reports, then the SELL entry when the try block throws |
| SellOrder.SellConflictTrackedOnce | src/lib/sell.ts:25-43 | exactly one ORDER_CONFLICT entry when both balances were read and formatted and no position is open or the log is missing, none otherwise |
| SellOrder.SellGate | src/lib/sell.ts:47 | nothing is submitted, saved, recorded or alerted unless a route exists, the token balance is above dust and a position is open |
| SellOrder.SellUndefinedLog | src/lib/sell.ts:28-47 | without a log, sell rejects exactly when a balance cannot be formatted ("invalid BigNumber string") or the route and balance checks passed (the TypeError) |
| SellOrder.SellWithoutHash | src/lib/sell.ts:52 | an execution without a hash returns quietly |
| SellOrder.SellSettlement | src/lib/sell.ts:54-79 | exactly when the gate holds, a hash came back and the balances were re-read and formatted, sell saves the closed position and one Sell trade of the stablecoin gained for the tokens sold |
| SellOrder.SellAlerts | src/lib/sell.ts:81-87 | the tokens-sold alert on settlement, "Sell order failed" when the try block throws, nothing otherwise |
| SellOrder.SellOutcome | src/lib/sell.ts:17-98 | sell rejects exactly when reading or formatting a balance throws, or the log is missing once the route and balance checks passed; it is still polling exactly when it passed the gate and execution is |
| SellOrder.UnsettledSellKeepsLog | src/lib/sell.ts:47-65 | a sell that does not settle leaves the stored position unchanged |
| SellOrder.SellTinyBalance | src/lib/sell.ts:45 | 10^11 wei of an 18-decimal token is above dust, yet no route is requested: sell tracks one GEN_ROUTE report, submits and saves nothing, and returns normally |
| SellOrder.SecondSellConflicts | src/lib/sell.ts:25-65 | after a settled sell that left only dust, the next sell, once its balances format, finds no open position, tracks one conflict, and submits, saves and records nothing |
| TradeRoute.Run | src/api/routes/trade.ts:14-35 | run(type, price) itself: an order is dispatched only with gas money and only for a BUY or SELL signal; RunGasFails through RunDispatches below state the rest of its contract |
| TradeRoute.RunGasFails | src/api/routes/trade.ts:15 | a native balance that cannot be read, or is 10^21 raw units or more, rejects run with that error before any alert or order |
| TradeRoute.RunWithoutGas | src/api/routes/trade.ts:15-22 | with a formattable native balance below one whole token, run sends only the gas alert and dispatches nothing |
| TradeRoute.RunBuy | src/api/routes/trade.ts:15-28 | with a formattable native balance of at least one whole token, BUY runs buy once with the same price and has exactly its effects and outcome |
| TradeRoute.RunSell | src/api/routes/trade.ts:15-34 | with a formattable native balance of at least one whole token, SELL runs sell once with the same price and has exactly its effects and outcome |
| TradeRoute.RunDispatches | src/api/routes/trade.ts:14-35 | at most one order per run: none when the native balance cannot be read or formatted, none without gas or for another type, otherwise exactly the named one |
| LegacyUtils.LegacyFromReadableAmount | libs/utils.ts:9-11 | an amount in exponent form throws "invalid decimal value"; any other amount converts exactly when its scaled value is whole, and then to that value, and otherwise throws the fractional-component error; it never rounds |
| LegacyUtils.LegacyFromReadableOfScale | libs/utils.ts:9-11 | a formatted raw balance converts back to its raw amount, unless it prints in exponent form, when it throws "invalid decimal value" |
| LegacyUtils.LegacyFractionalThrows | libs/utils.ts:9-11 | when the conversion throws, no raw integer represents the amount |
| LegacyUtils.LegacyAgreesWhenExact | libs/utils.ts:9-11 | where the older conversion succeeds, the current rounding one gives the same raw amount, except that it throws toFixed's RangeError above 100 decimals |
| LegacyUtils.GetTokenBalances | libs/utils.ts:43-57 | USDC is read first, then WETH, and the first read that throws propagates; then a balance of 10^21 raw units or more throws "invalid BigNumber string"; otherwise the results are what formatBalance returns for each raw balance at 6 and 18 decimals |
| LegacyRouting.LegacyGenerateRoute | libs/routing.ts:27-55 | no catch: an amount that does not convert throws before any request, and a router exception propagates after the request; nothing is tracked |
| LegacyRouting.GenerateRouteAgrees | libs/routing.ts:27-55 | where the amount converts and the router does not throw, both revisions' generateRoute behave identically up to 100 decimals; above that only the older one requests a route |
| LegacyRouting.LegacyApprovalRaw | libs/routing.ts:94-97 | the approve amount is 2000 whole tokens, exactly what fromReadableAmount(2000, decimals) gives, which never throws |
| LegacyRouting.LegacyGetTokenTransferApproval | libs/routing.ts:83-107 | no allowance check: with a provider and a buildable transaction, it always submits the 2000-token approve; otherwise Failed; nothing is tracked; a rejected send escapes |
| LegacyRouting.LegacyExecuteRoute | libs/routing.ts:57-81 | no wallet throws; the swap is submitted exactly when the approval came back Sent, otherwise Failed; a rejected swap propagates |
| LegacyBuyOrder.LegacyBuy | libs/buy.ts:10-58 | the older buy(price) itself: it dispatches no order, and it submits a transaction or is left polling only when its gate holds; LegacyBuyReadFails through LegacyBuySettlesWithoutSwap below state the rest of its contract |
| LegacyBuyOrder.LegacyOpened | libs/buy.ts:32-40 | the saved log keeps every earlier field, including the P&L, and sets positionOpen exactly when WETH is positive |
| LegacyBuyOrder.Attempt | libs/buy.ts:27-44 | the try block ignores the state executeRoute returns and throws exactly when execution, the balance re-read or its formatting throws |
| LegacyBuyOrder.LegacyBuyReadFails | libs/buy.ts:11-12 | a failing USDC read, or a balance formatBalance cannot format, rejects buy with that error and no effect |
| LegacyBuyOrder.LegacyBuyUndefinedLog | libs/buy.ts:12-16 | a missing log rejects buy before any route is requested: with "invalid BigNumber string" when the balance cannot be formatted, with the TypeError otherwise |
| LegacyBuyOrder.LegacyBuyRequestsRoute | libs/buy.ts:11-24 | with a log, one route is requested for getBuyAmount of the balance, unless the balance cannot be read or formatted or that amount does not convert |
| LegacyBuyOrder.LegacyBuyOutcome | libs/buy.ts:10-58 | buy rejects exactly when reading or formatting the balance throws, on a missing log, an amount that does not convert, or a router exception |
| LegacyBuyOrder.LegacyBuyErrors | libs/buy.ts:45-54 | the only tracked report is the BUY entry, without a chain, when the try block throws; an open position tracks no ORDER_CONFLICT |
| LegacyBuyOrder.LegacyBuyGate | libs/buy.ts:26 | nothing is submitted, saved or alerted unless a route exists, USDC exceeds the minimum and no position is open |
| LegacyBuyOrder.LegacyBuySettlement | libs/buy.ts:28-40 | exactly when the gate holds, executeRoute returned Sent or Failed, and the balances were re-read and formatted, buy saves the opened position |
| LegacyBuyOrder.LegacyBuyAlerts | libs/buy.ts:42-48 | the opened-position alert on settlement, "Buy order failed" when the try block throws, nothing otherwise |
| LegacyBuyOrder.LegacyBuySettlesWithoutSwap | libs/buy.ts:28-40 | an approval that could not even be built submits nothing, yet the buy still saves a position |
| LegacySellOrder.LegacySell | libs/sell.ts:8-52 | the older sell(price) itself: it dispatches no order, and it submits a transaction or is left polling only when its gate holds; LegacySellReadFails through LegacySellScenario below state the rest of its contract |
| LegacySellOrder.HasBalanceMeaning | libs/sell.ts:10-11 | hasBalance is "the formatted WETH balance is not zero", that is, raw * 10^15 > 10^18 |
| LegacySellOrder.OfferConversion | libs/sell.ts:22 | the amount sell routes converts to the whole raw balance, or to 0 for dust, unless the formatted balance prints in exponent form, when it throws "invalid decimal value" |
| LegacySellOrder.LegacySellConverts | libs/sell.ts:9-22 | in wei: the formatted balance converts exactly when it is at most 1000 (dust) or from 10^12 to below 10^39; since formatting throws from 10^21, the conversion is reached and succeeds exactly on dust and from 10^12 to below 10^21 |
| LegacySellOrder.TradePnl | libs/sell.ts:30-32 | lastTradePNL = (price - lastTradePrice) * sold, and no value without a last trade price |
| LegacySellOrder.AccumulatedPnl | libs/sell.ts:41 | a missing or zero running P&L restarts from this trade; otherwise the trade's P&L is added |
| LegacySellOrder.LegacyClosed | libs/sell.ts:34-42 | the saved log is always closed and carries the resynced balances, the price and the given P&L |
| LegacySellOrder.Attempt | libs/sell.ts:25-43 | the try block ignores the state executeRoute returns and throws exactly when execution, the balance re-read or its formatting throws |
| LegacySellOrder.Swallow | libs/sell.ts:45-48 | the catch block turns an exception into a normal return with no further effect |
| LegacySellOrder.LegacySellReadFails | libs/sell.ts:9-10 | a failing WETH read, or a balance formatBalance cannot format, rejects sell with that error and no effect |
| LegacySellOrder.LegacySellUndefinedLog | libs/sell.ts:10-18 | a missing log rejects sell before any route is requested: with "invalid BigNumber string" when the balance cannot be formatted, with the TypeError otherwise |
| LegacySellOrder.LegacySellRequestsRoute | libs/sell.ts:9-22 | with a log, one route is requested for the whole formatted balance, as the whole raw balance or 0 for dust, unless the balance cannot be read or formatted or does not convert, when none is |
| LegacySellOrder.LegacySellOutcome | libs/sell.ts:8-52 | sell rejects exactly when reading or formatting the balance throws, on a missing log, a balance that does not convert, or a router exception, and is still polling exactly when it passed the gate and execution is |
| LegacySellOrder.LegacySellSilent | libs/sell.ts:8-52 | sell never tracks an error, sends an alert or records a trade |
| LegacySellOrder.LegacySellGate | libs/sell.ts:22-24 | nothing is submitted or saved unless the balance converts, a route exists, WETH is above dust and a position is open |
| LegacySellOrder.LegacySellSettlement | libs/sell.ts:26-42 | exactly when the gate holds, executeRoute returned Sent or Failed, and the balances were re-read and formatted, sell saves a closed position with the accumulated P&L |
| LegacySellOrder.PnlAccumulates | libs/sell.ts:30-41 | the new running P&L is the old one (zero when absent) plus (price - lastTradePrice) * sold |
| LegacySellOrder.LegacySellAccumulates | libs/sell.ts:30-41 | a settled sell saves exactly that accumulated P&L |
| LegacySellOrder.LegacySellTinyBalance | libs/sell.ts:8-24 | 10^11 wei passes hasBalance, yet with a log sell rejects with "invalid decimal value" and no effect, since the older generateRoute has no catch |
| LegacySellOrder.LegacySellScenario | libs/sell.ts:30-41 | selling 0.02 WETH bought at 1800 at 1850 closes the position with a P&L of 1 |
| LegacyTradeRoute.LegacyRun | trade.ts:5-17 | the older run(type, price) itself: an order is dispatched only for a BUY or SELL signal, and any alert comes from the dispatched order; LegacyRunBuy through LegacyRunDispatches below state the rest of its contract |
| LegacyTradeRoute.LegacyRunBuy | trade.ts:6-10 | BUY runs buy once with the same price and has exactly its effects and outcome |
| LegacyTradeRoute.LegacyRunSell | trade.ts:12-16 | SELL runs sell once with the same price and has exactly its effects and outcome |
| LegacyTradeRoute.LegacyRunDispatches | trade.ts:5-17 | exactly the named order is dispatched, with no gas check and never a gas alert |

## Left out

- File, network and wallet I/O. fs reads and writes, the RPC provider, the
  wallet, the Uniswap AlphaRouter, Telegram and the logger are represented
  by their answers, which are oracle arguments. The model records what is
  handed to them but not how they deliver it.
- Floating point. Balances and prices are exact reals. Number() of a raw
  balance above 2^53, the rounding of `*` and `-` in P&L, `toFixed(5)` in
  alert text, and `toLocaleString` dates are not modelled. Alerts carry
  values, not formatted text. Number() also rounds a few raw values just
  below 10^21 up to 1e21, so formatBalance throws on them too; the model
  throws from 10^21 exactly.
- Store.Apply: each trackError call takes its own `new Date()`
  (src/lib/log.ts:80). The model stamps every report that one `Apply`
  stores with the single `now` it is given.
- LegacyUtils.LegacyFromReadableAmount and Amounts.FromReadableAmount: the
  text of a number outside exponent form is its exact decimal expansion. The
  binary rounding that makes JavaScript print, say, 0.30000000000000004 is
  floating point. Only the leading text of ethers' "invalid decimal value" and
  of toFixed's RangeError is kept; ethers appends the argument and value.
- NaN. `Number(price)` of non-numeric text is not modelled. The older sell's
  P&L without a last trade price is NaN, which JSON stores as null; it is
  modelled as no value.
- Provider.PollForReceipt and the receipt loop: the loop is unbounded, so a
  finite list of poll answers that never settles ends in `Polling` instead of
  diverging. Liveness is not modelled.
- Store.SaveLog and Store.TrackError: writeFileSync truncates the file when
  it opens it, so a write that fails after opening, for instance on a full
  disk, can leave an empty or partial file. The model only has writes that
  replace the file whole and writes that cannot open it.
- Concurrency. Two signals handled at the same time can interleave their
  reads and writes of the position log. Each call is modelled as running
  alone.
- Order across trace channels. Each channel keeps the order the code produces
  its entries, but the relative order of, say, an alert and a saved log is
  not recorded, because they go to independent observers.
- Configuration. getConfig, getToken and the chain registry are left out.
  The current orders take a `Config`:
  - the token pair, which getToken builds from config.json;
  - `Config.min`, config.json's strategy.min;
  - `Config.size`, which stands for strategy.size of the constant
    CurrentConfig (src/config/index.ts), the value getBuyAmount reads.

  The chain's display name is an optional `Env.chain`. When config.json is
  unreadable, getToken indexes the chain registry with undefined
  (src/lib/token.ts:9-11), so buy and sell throw before any effect. That
  path is not modelled.
- The root config.ts read by libs/buy.ts declares no `strategy`. The older
  buy takes its minimum and size as a `LegacyStrategy`.
- Source drift the model bridges:
  - src/utils getTokenBalances returns `formattedUSDCBalance`/`formattedWETHBalance`,
    but the current buy and sell read `formattedStablecoinBalance`/`formattedTokenBalance`.
    The model resyncs the configured pair, formatted with each token's
    decimals.
  - libs/buy.ts imports getBuyAmount and trackError, which libs/utils.ts and
    libs/log.ts do not define. The model uses the current definitions.
  - generateRandomHash and saveTrade are not part of this model. The trade
    key is an oracle answer, and a saved trade is an entry in the trades
    channel.
  - USDC_TOKEN, WETH_TOKEN and MATIC_TOKEN are not defined in src/constants.
    The native token's decimals are a parameter of `TradeRoute.Run`.
- sendEntireEthBalance after signing: the send and the wait for its receipt
  are left out, because they are wallet I/O.
- displayTrade, formatUSD, getChainData, the technical-indicator fetches,
  pool and quote helpers, and the HTTP layer are outside the trading
  decision logic.
- Units.ToReadableAmount and Units.FormatUnits: ethers' formatUnits is
  modelled on integers. Its handling of non-integer or malformed inputs is
  not modelled.

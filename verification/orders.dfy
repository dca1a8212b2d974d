/** What the buy and sell orders of the current revision share: the pair and
    strategy they trade with, the balance re-read after a swap, and the
    shape of their try/catch around execution and settlement. */
module Orders {
  import opened Common
  import opened Domain
  import opened Amounts
  import opened Provider

  /** The TypeError `log.positionOpen` throws when getLog returned undefined. */
  const UndefinedLogMessage := "Cannot read properties of undefined (reading 'positionOpen')"

  /** The configured pair and strategy: the stablecoin held between trades
      and the token speculated on (config.json's tokens), the stablecoin
      balance a buy must exceed (config.json's strategy.min), and the
      fraction of that balance a buy spends (strategy.size of the constant
      CurrentConfig, not of config.json). */
  datatype Config = Config(stablecoin: Token, token: Token, min: real, size: real)

  /** The strategy of CurrentConfig in src/config/index.ts: size 0.5, minimum 50. */
  function ExampleConfig(stablecoin: Token, token: Token): (c: Config)
    ensures c.stablecoin == stablecoin && c.token == token
    ensures c.min == 50.0 && c.size == 0.5
  {
    Config(stablecoin, token, 50.0, 0.5)
  }

  /** The balances read again after a swap (getTokenBalances), raw, or the
      exception one of those reads throws. */
  datatype Resync = Resynced(stableRaw: int, tokenRaw: int) | ResyncFails(message: string)

  /** getTokenBalances returns: both reads succeeded and formatBalance can
      format both raw balances. */
  predicate Rereads(r: Resync) {
    r.Resynced? && !Unformattable(r.stableRaw) && !Unformattable(r.tokenRaw)
  }

  /** The exception of a re-read that does not return: the read's own, or the
      one formatBalance throws. */
  function ResyncMessage(r: Resync): string
    requires !Rereads(r)
  {
    if r.ResyncFails? then r.message else BigNumberMessage
  }

  /** The balances getTokenBalances returns, stablecoin first: each is what
      formatBalance returns for the raw read. */
  function Balances(cfg: Config, r: Resync): (b: Holdings)
    requires Rereads(r)
    ensures FormatBalance(r.stableRaw, cfg.stablecoin.decimals) == Returns(b.stable)
    ensures FormatBalance(r.tokenRaw, cfg.token.decimals) == Returns(b.token)
    ensures b.stable == 0.0 || b.stable == Scale(r.stableRaw, cfg.stablecoin.decimals)
    ensures b.token == 0.0 <==> r.tokenRaw * DustDenominator <= Pow10(cfg.token.decimals)
    ensures b.token == 0.0 || b.token > DustThreshold
  {
    FormatBalanceZeroIff(r.tokenRaw, cfg.token.decimals);
    Holdings(BalanceValue(r.stableRaw, cfg.stablecoin.decimals), BalanceValue(r.tokenRaw, cfg.token.decimals))
  }

  /** Execution came back with a hash and the balances could be re-read:
      the order settles. */
  predicate Settles<L>(exec: Step<TxInfo, L>, r: Resync) {
    exec.out.Returns? && exec.out.value.hash.Some? && Rereads(r)
  }

  /** Something inside the try block throws: executeRoute itself, or the
      balance re-read after a hashed result. */
  predicate Fails<L>(exec: Step<TxInfo, L>, r: Resync) {
    exec.out.Raises? || (exec.out.Returns? && exec.out.value.hash.Some? && !Rereads(r))
  }

  /** The message of the exception the try block throws. */
  function FailureMessage<L>(exec: Step<TxInfo, L>, r: Resync): string
    requires Fails(exec, r)
  {
    if exec.out.Raises? then exec.out.message else ResyncMessage(r)
  }

  /** The catch block of buy and sell: an exception from the try block becomes
      one alert and then one tracked error, and the order completes normally.
      Anything else passes through. */
  function Catch<L>(t: Step<Unit, L>, alert: AlertMsg, kind: ErrorKind, chain: Option<string>): (s: Step<Unit, L>)
    ensures !t.out.Raises? ==> s == t
    ensures t.out.Raises? ==> s.out == Returns(())
    ensures s.effects.alerts == t.effects.alerts + (if t.out.Raises? then [alert] else [])
    ensures s.effects.errors ==
      t.effects.errors + (if t.out.Raises? then [ErrorReport(kind, t.out.message, chain, None)] else [])
    ensures s.effects.orders == t.effects.orders && s.effects.requests == t.effects.requests
    ensures s.effects.txs == t.effects.txs && s.effects.logs == t.effects.logs
    ensures s.effects.trades == t.effects.trades
  {
    match t.out
    case Raises(m) =>
      Step(Returns(()), Then(t.effects, Then(Alerted(alert), Tracked(ErrorReport(kind, m, chain, None)))))
    case _ =>
      assert t.effects.alerts + [] == t.effects.alerts;
      assert t.effects.errors + [] == t.effects.errors;
      t
  }
}

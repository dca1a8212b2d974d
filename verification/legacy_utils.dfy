/** The unit and balance helpers of the older revision (libs/utils.ts) that
    differ from the current ones: the fixed USDC/WETH/MATIC tokens, the
    parseUnits-based fromReadableAmount, and getTokenBalances.  Its
    formatBalance, toReadableAmount and hasGasMoney are the same code as the
    current revision's and are modelled once, in Amounts and Units. */
module LegacyUtils {
  import opened Common
  import opened Domain
  import opened Amounts

  /** The tokens of libs/constants.ts, with their decimals. */
  const UsdcToken := Token("USDC", 6)
  const WethToken := Token("WETH", 18)
  const MaticToken := Token("MATIC", 18)

  /** What parseUnits throws when the text has more fractional digits than
      the token has decimals. */
  const FractionalMessage := "fractional component exceeds decimals"

  /** The amount scaled up to raw units, before any rounding. */
  function Scaled(amount: real, decimals: nat): real {
    amount * Pow10(decimals) as real
  }

  /** fromReadableAmount of the older revision: parseUnits of the amount's
      own text.  Exponent-form text ("1e-7") is not a decimal and throws;
      otherwise parseUnits never rounds, so the conversion succeeds exactly
      when the scaled amount is a whole number. */
  function LegacyFromReadableAmount(amount: real, decimals: nat): (r: Conversion)
    ensures r.Converted? ==> r.raw as real == Scaled(amount, decimals) && !ExponentForm(amount)
    ensures ExponentForm(amount) ==> r == Throws(InvalidDecimalMessage)
    ensures !ExponentForm(amount) && r.Throws? ==>
      r.message == FractionalMessage && Scaled(amount, decimals).Floor as real < Scaled(amount, decimals)
  {
    if ExponentForm(amount) then Throws(InvalidDecimalMessage)
    else
      var x := Scaled(amount, decimals);
      if x.Floor as real == x then Converted(x.Floor) else Throws(FractionalMessage)
  }

  /** Every balance the bot itself formatted converts back to its raw
      amount, unless it prints in exponent form. */
  lemma LegacyFromReadableOfScale(raw: int, decimals: nat)
    ensures LegacyFromReadableAmount(Scale(raw, decimals), decimals) ==
      if ExponentForm(Scale(raw, decimals)) then Throws(InvalidDecimalMessage) else Converted(raw)
  {
    ScaleTimesPow(raw, decimals);
    assert Scaled(Scale(raw, decimals), decimals) == raw as real;
  }

  /** The fraction check of parseUnits throws exactly on amounts that no raw
      integer represents. */
  lemma LegacyFractionalThrows(amount: real, decimals: nat, n: int)
    requires LegacyFromReadableAmount(amount, decimals) == Throws(FractionalMessage)
    ensures n as real != Scaled(amount, decimals)
  {
  }

  /** Where the older conversion succeeds, the current rounding one gives the
      same raw amount (toFixed accepting the digits); the current one only
      adds rounding for the amounts on which the older one throws. */
  lemma LegacyAgreesWhenExact(amount: real, decimals: nat)
    requires LegacyFromReadableAmount(amount, decimals).Converted?
    ensures FromReadableAmount(amount, decimals) ==
      if decimals > MaxFixedDigits then Throws(FixedDigitsMessage) else LegacyFromReadableAmount(amount, decimals)
  {
    var raw := LegacyFromReadableAmount(amount, decimals).raw;
    RoundWhole(raw);
    assert Rounded(amount, decimals) == raw;
    DivCompare(raw as real, Pow10(decimals) as real, 0.0);
    assert Fixed(amount, decimals) == amount;
    FromReadableConverts(amount, decimals);
  }

  /** A whole amount of tokens converts to that many whole units, unless it
      is at least 10^21 and prints in exponent form. */
  lemma LegacyWholeAmount(n: nat, decimals: nat)
    ensures LegacyFromReadableAmount(n as real, decimals) ==
      if n as real >= PlainLimit then Throws(InvalidDecimalMessage) else Converted(n * Pow10(decimals))
  {
    assert Scaled(n as real, decimals) == (n * Pow10(decimals)) as real;
  }

  /** getTokenBalances: read USDC, then WETH, then format both.  A read that
      throws propagates, the first one first; so does formatBalance's throw
      on a balance of 10^21 raw units or more. */
  function GetTokenBalances(usdc: Reading, weth: Reading): (r: Outcome<Holdings>)
    ensures r.Returns? <==> Formats(usdc) && Formats(weth)
    ensures usdc.ReadFails? ==> r == Raises(usdc.message)
    ensures usdc.Read? && weth.ReadFails? ==> r == Raises(weth.message)
    ensures usdc.Read? && weth.Read? && !r.Returns? ==> r == Raises(BigNumberMessage)
    ensures r.Returns? ==>
      FormatBalance(usdc.raw, UsdcToken.decimals) == Returns(r.value.stable) &&
      FormatBalance(weth.raw, WethToken.decimals) == Returns(r.value.token)
    ensures r.Returns? ==> (r.value.token == 0.0 <==> weth.raw * DustDenominator <= Pow10(WethToken.decimals))
  {
    match usdc
    case ReadFails(m) => Raises(m)
    case Read(u) =>
      match weth
      case ReadFails(m) => Raises(m)
      case Read(w) =>
        var fu := FormatBalance(u, UsdcToken.decimals);
        var fw := FormatBalance(w, WethToken.decimals);
        if fu.Raises? then Raises(fu.message)
        else if fw.Raises? then Raises(fw.message)
        else
          FormatBalanceZeroIff(w, WethToken.decimals);
          Returns(Holdings(fu.value, fw.value))
  }
}

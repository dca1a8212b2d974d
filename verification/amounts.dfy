/** Number rules of src/utils/index.ts: dust-nulling of balances, the gas
    threshold, trade sizing, allowance scaling, readable-to-raw conversion and
    the arithmetic of sweeping a wallet's whole native balance.  ethers'
    formatUnits/parseUnits are modelled as exact scaling by 10^decimals. */
module Amounts {
  import opened Common

  /** Whole numbers from 1 up: the type of powers of ten, so that dividing
      by one is always defined. */
  type Positive = n: nat | n >= 1 witness 1

  /** 10^n; an arithmetic helper. */
  function Pow10(n: nat): Positive {
    if n == 0 then 1 else 10 * Pow10(n - 1)
  }

  /** 10^(a+b) == 10^a * 10^b, by induction on a. */
  lemma {:induction false} Pow10Add(a: nat, b: nat)
    ensures Pow10(a + b) == Pow10(a) * Pow10(b)
  {
    if a > 0 {
      Pow10Add(a - 1, b);
      assert Pow10(a + b) == 10 * Pow10(a - 1 + b);
    }
  }

  /** The number formatUnits(raw, decimals) denotes. */
  function Scale(raw: int, decimals: nat): real {
    raw as real / Pow10(decimals) as real
  }

  /** Balances at or below this are "dust" and read as zero. */
  const DustThreshold: real := 0.000000000000001

  /** 1 / DustThreshold. */
  const DustDenominator: nat := 1_000_000_000_000_000

  /** The number formatBalance returns when it returns: the scaled balance,
      with everything at or below the dust threshold (negative values
      included) replaced by exactly zero. */
  function BalanceValue(raw: int, decimals: nat): (r: real)
    ensures r == 0.0 || r > DustThreshold
    ensures r == 0.0 || r == Scale(raw, decimals)
  {
    var v := Scale(raw, decimals);
    if v <= DustThreshold then 0.0 else v
  }

  /** getTokenBalance hands formatBalance `Number(balance)`, and formatBalance
      formats the text of that number.  From 10^21 on the text is in exponent
      form ("1e+21"), which formatUnits cannot parse. */
  const ExponentFrom: int := 1_000_000_000_000_000_000_000

  /** The leading text of the error BigNumber.from throws on such text. */
  const BigNumberMessage := "invalid BigNumber string"

  /** The raw balance prints in exponent form, so formatBalance throws. */
  predicate Unformattable(raw: int) {
    raw <= -ExponentFrom || ExponentFrom <= raw
  }

  /** For a raw integer, being unformattable is being in exponent form, the
      same rule that makes fromReadableAmount throw. */
  lemma UnformattableIsExponentForm(raw: int)
    ensures Unformattable(raw) <==> ExponentForm(raw as real)
  {
    if raw != 0 {
      if raw > 0 {
        assert raw as real >= 1.0 > PlainMin;
      } else {
        assert -(raw as real) >= 1.0 > PlainMin;
      }
    }
  }

  /** formatBalance: it rejects a balance that prints in exponent form, and
      otherwise returns the dust-nulled scaled balance. */
  function FormatBalance(raw: int, decimals: nat): (r: Outcome<real>)
    ensures r.Raises? <==> Unformattable(raw)
    ensures r.Raises? ==> r.message == BigNumberMessage
    ensures r.Returns? ==> r.value == 0.0 || r.value > DustThreshold
    ensures r.Returns? ==> r.value == 0.0 || r.value == Scale(raw, decimals)
    ensures !r.Polling?
  {
    if Unformattable(raw) then Raises(BigNumberMessage) else Returns(BalanceValue(raw, decimals))
  }

  /** A balance read that formatBalance can then format: the read succeeded
      and the raw number prints without an exponent. */
  predicate Formats(r: Reading) {
    r.Read? && !Unformattable(r.raw)
  }

  /** Dividing by a positive number and comparing is comparing before dividing. */
  lemma DivCompare(a: real, p: real, bound: real)
    requires p > 0.0
    ensures a / p <= bound <==> a <= bound * p
    ensures a / p >= bound <==> a >= bound * p
    ensures a / p * p == a
  {
    if a / p <= bound {
      assert a / p * p <= bound * p;
    }
    if a / p >= bound {
      assert a / p * p >= bound * p;
    }
  }

  lemma ScaleTimesPow(raw: int, decimals: nat)
    ensures Scale(raw, decimals) * Pow10(decimals) as real == raw as real
  {
    DivCompare(raw as real, Pow10(decimals) as real, 0.0);
  }

  /** Comparing a scaled balance with a bound is comparing the raw integer
      with the bound scaled up. */
  lemma ScaleAtMost(raw: int, decimals: nat, bound: real)
    ensures Scale(raw, decimals) <= bound <==> raw as real <= bound * Pow10(decimals) as real
    ensures Scale(raw, decimals) >= bound <==> raw as real >= bound * Pow10(decimals) as real
  {
    DivCompare(raw as real, Pow10(decimals) as real, bound);
  }

  /** A balance formats to zero exactly when raw * 10^15 <= 10^decimals. */
  lemma FormatBalanceZeroIff(raw: int, decimals: nat)
    ensures BalanceValue(raw, decimals) == 0.0 <==> raw * DustDenominator <= Pow10(decimals)
  {
    ScaleAtMost(raw, decimals, DustThreshold);
    var p := Pow10(decimals) as real;
    assert DustThreshold * p * DustDenominator as real == p;
    if raw as real <= DustThreshold * p {
      assert raw as real * DustDenominator as real <= p;
    } else {
      assert raw as real * DustDenominator as real > p;
    }
  }

  /** More raw balance never formats to less. */
  lemma FormatBalanceMonotone(raw1: int, raw2: int, decimals: nat)
    requires raw1 <= raw2
    ensures BalanceValue(raw1, decimals) <= BalanceValue(raw2, decimals)
  {
    ScaleAtMost(raw1, decimals, Scale(raw2, decimals));
    ScaleTimesPow(raw2, decimals);
  }

  /** The native-token balance that hasGasMoney demands (inclusive). */
  const MinGasBalance: real := 1.0

  /** hasGasMoney: read the native balance, format it, and ask for at least
      one whole token.  A read that throws and a balance that cannot be
      formatted both reject. */
  function HasGasMoney(gas: Reading, decimals: nat): (r: Outcome<bool>)
    ensures gas.ReadFails? ==> r == Raises(gas.message)
    ensures gas.Read? && Unformattable(gas.raw) ==> r == Raises(BigNumberMessage)
    ensures r.Returns? <==> Formats(gas)
    ensures r.Returns? ==> (r.value <==> gas.raw >= Pow10(decimals))
  {
    match gas
    case ReadFails(m) => Raises(m)
    case Read(raw) =>
      var f := FormatBalance(raw, decimals);
      if f.Raises? then Raises(f.message)
      else
        GasThreshold(raw, decimals);
        Returns(f.value >= MinGasBalance)
  }

  lemma GasThreshold(raw: int, decimals: nat)
    ensures BalanceValue(raw, decimals) >= MinGasBalance <==> raw >= Pow10(decimals)
  {
    ScaleAtMost(raw, decimals, 1.0);
  }

  /** getBuyAmount: the balance times the strategy size clamped to at most 1. */
  function GetBuyAmount(balance: real, size: real): (r: real)
    ensures size >= 1.0 ==> r == balance
    ensures size <= 1.0 ==> r == balance * size
    ensures 0.0 <= balance ==> r <= balance
    ensures 0.0 <= balance && 0.0 <= size ==> 0.0 <= r
  {
    var clamped := if size > 1.0 then 1.0 else size;
    assert 0.0 <= balance && 0.0 <= clamped ==> 0.0 <= balance * clamped;
    balance * clamped
  }

  /** checkAllowance compared with a trade size: the allowance formatted with
      the token's decimals (no dust rule here) is at least the size. */
  function AllowanceCovers(rawAllowance: int, decimals: nat, tradeSize: real): bool {
    Scale(rawAllowance, decimals) >= tradeSize
  }

  /** The allowance covers a size exactly when the raw allowance is at least
      the size scaled up by 10^decimals. */
  lemma AllowanceCoversMeaning(rawAllowance: int, decimals: nat, tradeSize: real)
    ensures AllowanceCovers(rawAllowance, decimals, tradeSize) <==> rawAllowance as real >= tradeSize * Pow10(decimals) as real
  {
    ScaleAtMost(rawAllowance, decimals, tradeSize);
  }

  /** Number.prototype.toFixed rounding: to the nearest integer, ties away from zero. */
  function RoundHalfAway(x: real): int {
    if x >= 0.0 then (x + 0.5).Floor else -((-x + 0.5).Floor)
  }

  /** The rounded value is the nearest integer, halves going away from zero. */
  lemma RoundHalfAwayBounds(x: real)
    ensures x >= 0.0 ==> x - 0.5 < RoundHalfAway(x) as real <= x + 0.5
    ensures x < 0.0 ==> x - 0.5 <= RoundHalfAway(x) as real < x + 0.5
  {
  }

  /** toFixed takes at most this many fraction digits and throws a
      RangeError beyond. */
  const MaxFixedDigits: nat := 100
  const FixedDigitsMessage := "toFixed() digits argument must be between 0 and 100"

  /** What parseUnits throws on text that is not a plain decimal, such as "1e-7". */
  const InvalidDecimalMessage := "invalid decimal value"

  /** Number.prototype.toString writes a non-zero number whose magnitude is
      below 10^-6 or at least 10^21 in exponent form. */
  const PlainMin: real := 0.000001
  const PlainLimit: real := 1_000_000_000_000_000_000_000.0

  /** The text JavaScript prints for `x` is in exponent form. */
  predicate ExponentForm(x: real) {
    var m := if x < 0.0 then -x else x;
    x != 0.0 && (m < PlainMin || m >= PlainLimit)
  }

  /** A synchronous conversion to raw units: the raw integer, or what it throws. */
  datatype Conversion = Converted(raw: int) | Throws(message: string)

  /** The raw units of amount.toFixed(decimals): the scaled amount rounded
      to the nearest integer. */
  function Rounded(amount: real, decimals: nat): int {
    RoundHalfAway(amount * Pow10(decimals) as real)
  }

  /** Number(amount.toFixed(decimals)): the amount rounded to `decimals`
      fraction digits. */
  function Fixed(amount: real, decimals: nat): real {
    Scale(Rounded(amount, decimals), decimals)
  }

  /** fromReadableAmount: round with toFixed, print the rounded number and
      parse the text back with parseUnits.  toFixed throws beyond 100
      digits, and parseUnits throws when the printed text is in exponent
      form; otherwise the text is read exactly. */
  function FromReadableAmount(amount: real, decimals: nat): (r: Conversion)
    ensures decimals > MaxFixedDigits ==> r == Throws(FixedDigitsMessage)
    ensures decimals <= MaxFixedDigits && r.Throws? ==> r.message == InvalidDecimalMessage
    ensures r.Converted? ==> Scale(r.raw, decimals) == Fixed(amount, decimals)
  {
    if decimals > MaxFixedDigits then Throws(FixedDigitsMessage)
    else if ExponentForm(Fixed(amount, decimals)) then Throws(InvalidDecimalMessage)
    else Converted(Rounded(amount, decimals))
  }

  /** The conversion succeeds exactly when toFixed accepts the digits and the
      rounded amount prints in plain decimal, and then gives the rounded
      scaled amount. */
  lemma FromReadableConverts(amount: real, decimals: nat)
    ensures FromReadableAmount(amount, decimals).Converted? <==>
      decimals <= MaxFixedDigits && !ExponentForm(Fixed(amount, decimals))
    ensures FromReadableAmount(amount, decimals).Converted? ==>
      FromReadableAmount(amount, decimals).raw == Rounded(amount, decimals)
  {
  }

  /** A converted raw amount is within half a unit of the exact scaled amount. */
  lemma FromReadableWithinHalf(amount: real, decimals: nat)
    requires FromReadableAmount(amount, decimals).Converted?
    ensures amount * Pow10(decimals) as real - 0.5 <= FromReadableAmount(amount, decimals).raw as real <= amount * Pow10(decimals) as real + 0.5
  {
    RoundedWithinHalf(amount, decimals);
    FromReadableConverts(amount, decimals);
  }

  lemma RoundedWithinHalf(amount: real, decimals: nat)
    ensures amount * Pow10(decimals) as real - 0.5 <= Rounded(amount, decimals) as real <= amount * Pow10(decimals) as real + 0.5
  {
    RoundHalfAwayBounds(amount * Pow10(decimals) as real);
  }

  /** Rounding leaves whole numbers alone. */
  lemma RoundWhole(n: int)
    ensures RoundHalfAway(n as real) == n
  {
    if n >= 0 {
      assert (n as real + 0.5).Floor == n;
    } else {
      assert (-(n as real) + 0.5).Floor == -n;
    }
  }

  /** Converting a formatted raw amount back gives the raw amount, unless it
      prints in exponent form (or the digits exceed what toFixed takes). */
  lemma FromReadableOfScale(raw: int, decimals: nat)
    ensures FromReadableAmount(Scale(raw, decimals), decimals) ==
      if decimals > MaxFixedDigits then Throws(FixedDigitsMessage)
      else if ExponentForm(Scale(raw, decimals)) then Throws(InvalidDecimalMessage)
      else Converted(raw)
  {
    var y := Scale(raw, decimals) * Pow10(decimals) as real;
    ScaleTimesPow(raw, decimals);
    assert y == raw as real;
    RoundWhole(raw);
    assert Rounded(Scale(raw, decimals), decimals) == raw;
  }

  /** Evaluation helpers for the concrete scenarios; they state nothing
      about the bot. */
  lemma Pow10Six()
    ensures Pow10(6) == 1_000_000
  {
    assert Pow10(2) == 100;
    assert Pow10(4) == 10_000;
  }

  lemma Pow10Eighteen()
    ensures Pow10(18) == 1_000_000_000_000_000_000
  {
    Pow10Six();
    Pow10Add(6, 6);
    Pow10Add(12, 6);
  }

  /** 10^11 raw units of an 18-decimal token are 1e-7 tokens: above the dust
      threshold, yet printed as "1e-7", which parseUnits rejects. */
  lemma TinyBalanceThrows()
    ensures FormatBalance(100_000_000_000, 18) == Returns(0.0000001)
    ensures FromReadableAmount(BalanceValue(100_000_000_000, 18), 18) == Throws(InvalidDecimalMessage)
  {
    Pow10Eighteen();
    assert Scale(100_000_000_000, 18) == 0.0000001;
    FromReadableOfScale(100_000_000_000, 18);
  }

  /** Gas limit of a plain native-token transfer. */
  const TransferGasLimit: nat := 21000

  const EmptyWalletMessage := "Insufficient ETH balance in the wallet."
  const BelowGasCostMessage := "Insufficient ETH balance to cover the gas cost for the transaction."

  /** The transfer sendEntireEthBalance signs. */
  datatype Transfer = Transfer(to: string, value: nat, gasLimit: nat, gasPrice: nat)

  /** sendEntireEthBalance up to signing: refuse an empty wallet or one that
      cannot pay for the gas; otherwise send everything but the gas cost. */
  function SweepTransfer(balance: nat, gasPrice: nat, to: string): (r: Outcome<Transfer>)
    ensures balance == 0 ==> r == Raises(EmptyWalletMessage)
    ensures balance > 0 && balance < gasPrice * TransferGasLimit ==> r == Raises(BelowGasCostMessage)
    ensures r.Returns? <==> balance > 0 && balance >= gasPrice * TransferGasLimit
    ensures r.Returns? ==> r.value.to == to && r.value.gasLimit == TransferGasLimit && r.value.gasPrice == gasPrice
    ensures r.Returns? ==> r.value.value + r.value.gasLimit * r.value.gasPrice == balance
    ensures r.Polling? == false
  {
    if balance == 0 then Raises(EmptyWalletMessage)
    else
      var gasCost := gasPrice * TransferGasLimit;
      if balance < gasCost then Raises(BelowGasCostMessage)
      else Returns(Transfer(to, balance - gasCost, TransferGasLimit, gasPrice))
  }
}

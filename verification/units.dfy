/** Text of ethers' formatUnits and the bot's toReadableAmount, which keeps
    at most the first MaxDecimals characters of it.  ParseUnits reads such
    text back to raw units; it is the inverse the text is checked against. */
module Units {
  import opened Common
  import opened Amounts

  /** Number of characters toReadableAmount keeps. */
  const MaxDecimals: nat := 4

  predicate IsDigit(c: char) {
    '0' <= c <= '9'
  }

  predicate AllDigits(s: string) {
    forall i | 0 <= i < |s| :: IsDigit(s[i])
  }

  function DigitChar(d: nat): (c: char)
    requires d < 10
    ensures IsDigit(c) && c as int - '0' as int == d
  {
    (('0' as int) + d) as char
  }

  function DigitValue(c: char): nat
    requires IsDigit(c)
  {
    c as int - '0' as int
  }

  /** Decimal digits of a natural number, most significant first, no leading zeros. */
  function NatToDigits(n: nat): (s: string)
    ensures |s| >= 1 && AllDigits(s)
    decreases n
  {
    if n < 10 then [DigitChar(n)] else NatToDigits(n / 10) + [DigitChar(n % 10)]
  }

  /** The number a string of digits denotes. */
  function DigitsValue(s: string): nat
    requires AllDigits(s)
    decreases |s|
  {
    if |s| == 0 then 0 else DigitsValue(s[..|s| - 1]) * 10 + DigitValue(s[|s| - 1])
  }

  function Zeros(k: nat): (z: string)
    ensures |z| == k && AllDigits(z)
    ensures forall i | 0 <= i < k :: z[i] == '0'
  {
    seq(k, _ => '0')
  }

  /** String.padStart with '0'. */
  function PadStart(s: string, width: nat): (r: string)
    requires AllDigits(s)
    ensures AllDigits(r)
    ensures |s| <= width ==> |r| == width
  {
    if |s| >= width then s else Zeros(width - |s|) + s
  }

  /** Drop every trailing '0'. */
  function TrimZeros(s: string): (r: string)
    requires AllDigits(s)
    ensures AllDigits(r) && |r| <= |s|
    decreases |s|
  {
    if |s| == 0 then s
    else if s[|s| - 1] == '0' then TrimZeros(s[..|s| - 1])
    else s
  }

  /** The fraction kept by formatFixed's /^([0-9]*[1-9]|0)(0*)/: everything up
      to the last non-zero digit, or "0" when there is none. */
  function StripFraction(s: string): (r: string)
    requires AllDigits(s)
    ensures AllDigits(r) && |r| >= 1
  {
    var t := TrimZeros(s);
    if |t| == 0 then "0" else t
  }

  /** formatUnits(raw, decimals) as text: sign, whole part, and unless
      decimals is 0 a '.' and the fraction without trailing zeros. */
  function FormatUnits(raw: int, decimals: nat): (s: string)
    ensures |s| >= 1
    ensures s[0] == '-' <==> raw < 0
    ensures raw >= 0 ==> IsDigit(s[0])
  {
    var body := UnsignedText(if raw < 0 then -raw else raw, decimals);
    if raw < 0 then "-" + body else body
  }

  /** formatUnits of a non-negative amount. */
  function UnsignedText(v: nat, decimals: nat): (s: string)
    ensures |s| >= 1 && IsDigit(s[0])
  {
    var m := Pow10(decimals);
    DivMod(v, m);
    var q: nat := v / m;
    var r: nat := v % m;
    var whole := NatToDigits(q);
    if decimals == 0 then whole
    else
      var digits := NatToDigits(r);
      var padded := PadStart(digits, decimals);
      whole + "." + StripFraction(padded)
  }

  /** toReadableAmount: formatUnits(raw, decimals).slice(0, MaxDecimals). */
  function ToReadableAmount(raw: int, decimals: nat): (r: string)
    ensures |r| <= MaxDecimals
    ensures r <= FormatUnits(raw, decimals)
    ensures |FormatUnits(raw, decimals)| <= MaxDecimals ==> r == FormatUnits(raw, decimals)
    ensures |FormatUnits(raw, decimals)| >= MaxDecimals ==> |r| == MaxDecimals
  {
    var full := FormatUnits(raw, decimals);
    full[..if |full| < MaxDecimals then |full| else MaxDecimals]
  }

  // ---------------------------------------------------------------------
  // Reading decimal text back

  /** Position of the first '.', or |s| when there is none. */
  function IndexOfDot(s: string): (i: nat)
    ensures i <= |s|
    ensures forall j | 0 <= j < i :: s[j] != '.'
    ensures i < |s| ==> s[i] == '.'
    decreases |s|
  {
    if |s| == 0 then 0
    else if s[0] == '.' then 0
    else 1 + IndexOfDot(s[1..])
  }

  /** A strict reader of unsigned formatUnits output, standing in for
      parseUnits(s, decimals): digits, optionally followed by '.' and one to
      `decimals` fraction digits, read as the raw integer amount; None for
      anything else.  parseUnits accepts more (".5", "1.", extra trailing
      zeros); this reader covers only the text formatUnits produces. */
  function ParseUnsignedUnits(s: string, decimals: nat): Option<nat> {
    var i := IndexOfDot(s);
    var whole := s[..i];
    if |whole| == 0 || !AllDigits(whole) then None
    else if i == |s| then Some(DigitsValue(whole) * Pow10(decimals))
    else
      var frac := s[i + 1..];
      if |frac| == 0 || |frac| > decimals || !AllDigits(frac) then None
      else Some(DigitsValue(whole) * Pow10(decimals) + DigitsValue(frac) * Pow10(decimals - |frac|))
  }

  /** parseUnits(s, decimals): an optional leading '-' before the unsigned text. */
  function ParseUnits(s: string, decimals: nat): Option<int> {
    if |s| > 0 && s[0] == '-' then
      match ParseUnsignedUnits(s[1..], decimals)
      case Some(x) => Some(-(x as int))
      case None => None
    else
      match ParseUnsignedUnits(s, decimals)
      case Some(x) => Some(x as int)
      case None => None
  }

  // ---------------------------------------------------------------------
  // Lemmas

  lemma {:induction false} NatToDigitsValue(n: nat)
    ensures DigitsValue(NatToDigits(n)) == n
    decreases n
  {
    if n >= 10 {
      var s := NatToDigits(n);
      assert s[..|s| - 1] == NatToDigits(n / 10);
      NatToDigitsValue(n / 10);
    }
  }

  lemma {:induction false} NatToDigitsLength(n: nat, k: nat)
    requires k >= 1 && n < Pow10(k)
    ensures |NatToDigits(n)| <= k
    decreases k
  {
    if n >= 10 {
      assert k >= 2;
      assert n / 10 < Pow10(k - 1);
      NatToDigitsLength(n / 10, k - 1);
    }
  }

  lemma {:induction false} ZerosValue(k: nat)
    ensures DigitsValue(Zeros(k)) == 0
    decreases k
  {
    if k > 0 {
      assert Zeros(k)[..k - 1] == Zeros(k - 1);
      ZerosValue(k - 1);
    }
  }

  /** Leading zeros do not change the value. */
  lemma {:induction false} LeadingZerosValue(k: nat, s: string)
    requires AllDigits(s)
    ensures DigitsValue(Zeros(k) + s) == DigitsValue(s)
    decreases |s|
  {
    if |s| == 0 {
      assert Zeros(k) + s == Zeros(k);
      ZerosValue(k);
    } else {
      var t := Zeros(k) + s;
      assert t[..|t| - 1] == Zeros(k) + s[..|s| - 1];
      LeadingZerosValue(k, s[..|s| - 1]);
    }
  }

  lemma Pow10Succ(k: nat)
    ensures Pow10(k + 1) == 10 * Pow10(k)
  {
  }

  lemma MulTen(a: nat, p: nat)
    ensures a * (10 * p) == (a * p) * 10
  {
  }

  /** Trimming trailing zeros divides the value by ten per zero dropped. */
  lemma {:induction false} TrimZerosScale(s: string)
    requires AllDigits(s)
    ensures DigitsValue(TrimZeros(s)) * Pow10(|s| - |TrimZeros(s)|) == DigitsValue(s)
    decreases |s|
  {
    if |s| > 0 && s[|s| - 1] == '0' {
      var u := s[..|s| - 1];
      var t := TrimZeros(u);
      assert TrimZeros(s) == t;
      assert DigitsValue(s) == DigitsValue(u) * 10;
      TrimZerosScale(u);
      var k := |u| - |t|;
      assert |s| - |t| == k + 1;
      Pow10Succ(k);
      MulTen(DigitsValue(t), Pow10(k));
    } else {
      assert |s| - |TrimZeros(s)| == 0;
    }
  }

  /** The fraction formatUnits keeps denotes the same amount of raw units. */
  lemma StripFractionScale(s: string)
    requires |s| >= 1 && AllDigits(s)
    ensures |StripFraction(s)| <= |s|
    ensures DigitsValue(StripFraction(s)) * Pow10(|s| - |StripFraction(s)|) == DigitsValue(s)
  {
    TrimZerosScale(s);
    if |TrimZeros(s)| == 0 {
      assert DigitsValue(TrimZeros(s)) == 0;
      assert "0"[..0] == "";
      assert DigitsValue("0") == 0;
    }
  }

  /** The padded remainder has exactly `d` digits and denotes the remainder. */
  lemma PaddedRemainder(r: nat, d: nat)
    requires d >= 1 && r < Pow10(d)
    ensures |PadStart(NatToDigits(r), d)| == d
    ensures DigitsValue(PadStart(NatToDigits(r), d)) == r
  {
    var s := NatToDigits(r);
    NatToDigitsLength(r, d);
    NatToDigitsValue(r);
    if |s| < d {
      LeadingZerosValue(d - |s|, s);
    }
  }

  lemma {:induction false} IndexOfDotAfterDigits(w: string, rest: string)
    requires AllDigits(w)
    ensures IndexOfDot(w + "." + rest) == |w|
    decreases |w|
  {
    if |w| > 0 {
      assert (w + "." + rest)[1..] == w[1..] + "." + rest;
      IndexOfDotAfterDigits(w[1..], rest);
    }
  }

  lemma {:induction false} IndexOfDotDigits(w: string)
    requires AllDigits(w)
    ensures IndexOfDot(w) == |w|
    decreases |w|
  {
    if |w| > 0 {
      IndexOfDotDigits(w[1..]);
    }
  }

  lemma ParseWhole(w: string, d: nat)
    requires |w| >= 1 && AllDigits(w)
    ensures ParseUnsignedUnits(w, d) == Some(DigitsValue(w) * Pow10(d))
  {
    IndexOfDotDigits(w);
    assert w[..|w|] == w;
  }

  lemma ParseWholeDotFraction(w: string, f: string, d: nat)
    requires |w| >= 1 && AllDigits(w)
    requires 1 <= |f| <= d && AllDigits(f)
    ensures ParseUnsignedUnits(w + "." + f, d) == Some(DigitsValue(w) * Pow10(d) + DigitsValue(f) * Pow10(d - |f|))
  {
    var s := w + "." + f;
    IndexOfDotAfterDigits(w, f);
    assert s[..|w|] == w;
    assert s[|w| + 1..] == f;
  }

  /** The text of a non-negative amount reads back as that amount. */
  lemma UnsignedRoundTrip(v: nat, decimals: nat)
    ensures ParseUnsignedUnits(UnsignedText(v, decimals), decimals) == Some(v)
  {
    if decimals == 0 {
      WholeRoundTrip(v);
    } else {
      FractionalRoundTrip(v, decimals);
    }
  }

  lemma WholeRoundTrip(v: nat)
    ensures ParseUnsignedUnits(UnsignedText(v, 0), 0) == Some(v)
  {
    assert Pow10(0) == 1;
    var whole := NatToDigits(v / 1);
    assert UnsignedText(v, 0) == whole;
    NatToDigitsValue(v / 1);
    ParseWhole(whole, 0);
  }

  lemma FractionalRoundTrip(v: nat, decimals: nat)
    requires decimals >= 1
    ensures ParseUnsignedUnits(UnsignedText(v, decimals), decimals) == Some(v)
  {
    var m := Pow10(decimals);
    DivMod(v, m);
    FractionalRoundTripAt(v, decimals, m, v / m, v % m);
  }

  /** The fractional case with quotient and remainder named, which keeps the
      division out of the solver's way. */
  lemma FractionalRoundTripAt(v: nat, decimals: nat, m: nat, q: nat, r: nat)
    requires decimals >= 1 && m == Pow10(decimals)
    requires q * m + r == v && r < m && q == v / m && r == v % m
    ensures ParseUnsignedUnits(UnsignedText(v, decimals), decimals) == Some(v)
  {
    var whole := NatToDigits(q);
    var padded := PadStart(NatToDigits(r), decimals);
    var f := StripFraction(padded);
    assert UnsignedText(v, decimals) == whole + "." + f;
    NatToDigitsValue(q);
    PaddedRemainder(r, decimals);
    StripFractionScale(padded);
    ParseWholeDotFraction(whole, f, decimals);
  }

  lemma DivMod(v: nat, m: nat)
    requires m >= 1
    ensures 0 <= v / m && 0 <= v % m < m
    ensures (v / m) * m + v % m == v
  {
  }

  lemma UnsignedTextStartsWithDigit(v: nat, decimals: nat)
    ensures IsDigit(UnsignedText(v, decimals)[0])
  {
    var m := Pow10(decimals);
    DivMod(v, m);
    StartsWithDigitAt(v, decimals, m, v / m, v % m);
  }

  lemma StartsWithDigitAt(v: nat, decimals: nat, m: nat, q: nat, r: nat)
    requires m == Pow10(decimals) && q == v / m && r == v % m
    ensures IsDigit(UnsignedText(v, decimals)[0])
  {
    var whole := NatToDigits(q);
    assert IsDigit(whole[0]);
    if decimals > 0 {
      var f := StripFraction(PadStart(NatToDigits(r), decimals));
      assert UnsignedText(v, decimals) == whole + "." + f;
      assert (whole + "." + f)[0] == whole[0];
    }
  }

  /** parseUnits undoes formatUnits: the text of every raw amount, negative
      ones included, reads back as exactly that amount. */
  lemma FormatUnitsRoundTrip(raw: int, decimals: nat)
    ensures ParseUnits(FormatUnits(raw, decimals), decimals) == Some(raw)
  {
    var v: nat := if raw < 0 then -raw else raw;
    var body := UnsignedText(v, decimals);
    UnsignedRoundTrip(v, decimals);
    UnsignedTextStartsWithDigit(v, decimals);
    if raw < 0 {
      assert FormatUnits(raw, decimals) == "-" + body;
      assert ("-" + body)[1..] == body;
    } else {
      assert FormatUnits(raw, decimals) == body;
    }
  }
}

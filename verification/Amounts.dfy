/** Grams and wei: the fee service's exact parser, the order service's floating-point one, and
    the display string of the web client. */
module Amounts {
  import opened Wrappers
  import opened Decimal

  const FRACTION_DIGITS: nat := 18
  const WEI_PER_GRAM: int := 1_000_000_000_000_000_000

  // ------------------------------------------------------------------------- fee service

  function Split(s: string, sep: char): (parts: seq<string>)
    ensures |parts| >= 1
  {
    if s == "" then [""]
    else
      var rest := Split(s[1..], sep);
      if s[0] == sep then [""] + rest else [[s[0]] + rest[0]] + rest[1..]
  }

  /** Eighteen fraction digits: padded with zeros or cut off. */
  function Scaled(fraction: string): (s: string)
    ensures |s| == FRACTION_DIGITS
  {
    if |fraction| < FRACTION_DIGITS then fraction + Repeat('0', FRACTION_DIGITS - |fraction|)
    else fraction[..FRACTION_DIGITS]
  }

  function FeeWei(grams: string): Option<int> {
    var parts := Split(grams, '.');
    if |parts| > 2 then None
    else ParseInt(parts[0] + Scaled(if |parts| == 2 then parts[1] else ""))
  }

  method GramsToWei(grams: string) returns (wei: Option<int>)
    ensures wei == FeeWei(grams)
  {
    var parts := Split(grams, '.');
    if |parts| > 2 {
      return None;
    }
    var intPart, fracPart := parts[0], "";
    if |parts| == 2 {
      fracPart := parts[1];
    }
    ghost var given := fracPart;
    while |fracPart| < FRACTION_DIGITS
      invariant |given| <= |fracPart|
      invariant |fracPart| > FRACTION_DIGITS ==> fracPart == given
      invariant fracPart == given + Repeat('0', |fracPart| - |given|)
    {
      fracPart := fracPart + "0";
    }
    fracPart := fracPart[..FRACTION_DIGITS];
    assert fracPart == Scaled(given);
    wei := ParseInt(intPart + fracPart);
  }

  // -------------------------------------------------------------------------- web client

  function PadStart(s: string, n: nat): string {
    if |s| < n then Repeat('0', n - |s|) + s else s
  }

  function WholeGrams(wei: nat): nat {
    wei / WEI_PER_GRAM
  }

  /** The fraction in ten-thousandths of a gram, truncated. */
  function FourDecimals(wei: nat): (f: nat)
    ensures f < 10_000
  {
    wei % WEI_PER_GRAM * 10_000 / WEI_PER_GRAM
  }

  function Display(negative: bool, whole: nat, fraction: nat): string {
    (if negative then "-" else "") + Print(whole) + "." + PadStart(Print(fraction), 4)
  }

  /** None where the text is no integer. */
  function WeiToGrams(wei: string): Option<string> {
    match ParseInt(wei)
    case None => None
    case Some(n) =>
      var abs := if n < 0 then -n else n;
      Some(Display(wei[0] == '-', WholeGrams(abs), FourDecimals(abs)))
  }

  // ------------------------------------------------------------------------------ parsing

  lemma {:induction false} SplitWithout(s: string, sep: char)
    requires forall k | 0 <= k < |s| :: s[k] != sep
    ensures Split(s, sep) == [s]
  {
    if s != "" {
      SplitWithout(s[1..], sep);
      assert s == [s[0]] + s[1..];
    }
  }

  lemma {:induction false} SplitOnce(a: string, b: string, sep: char)
    requires forall k | 0 <= k < |a| :: a[k] != sep
    requires forall k | 0 <= k < |b| :: b[k] != sep
    ensures Split(a + [sep] + b, sep) == [a, b]
  {
    if a == "" {
      SplitWithout(b, sep);
      assert (a + [sep] + b)[1..] == b;
    } else {
      SplitOnce(a[1..], b, sep);
      assert (a + [sep] + b)[1..] == a[1..] + [sep] + b;
      assert a == [a[0]] + a[1..];
    }
  }

  /** A plain decimal: digits with an optional fraction. */
  predicate Plain(whole: string, fraction: string) {
    IsDigits(whole) && IsDigits(fraction)
  }

  function Text(whole: string, fraction: string): string {
    whole + "." + fraction
  }

  /** A text of a plain decimal; the point is left out only where nothing follows it. */
  predicate IsText(grams: string, whole: string, fraction: string) {
    Plain(whole, fraction) && (grams == Text(whole, fraction) || (grams == whole && fraction == ""))
  }

  lemma ShortScaled(fraction: string)
    requires IsDigits(fraction) && |fraction| <= FRACTION_DIGITS
    ensures IsDigits(Scaled(fraction))
    ensures Value(Scaled(fraction)) == Value(fraction) * Power10(FRACTION_DIGITS - |fraction|)
  {
    ValueZeros(FRACTION_DIGITS - |fraction|);
    ValueConcat(fraction, Repeat('0', FRACTION_DIGITS - |fraction|));
    assert Scaled(fraction) == fraction + Repeat('0', FRACTION_DIGITS - |fraction|);
  }

  lemma LongScaled(fraction: string)
    requires IsDigits(fraction) && |fraction| >= FRACTION_DIGITS
    ensures IsDigits(Scaled(fraction))
    ensures var s, q := Value(Scaled(fraction)), Power10(|fraction| - FRACTION_DIGITS);
            s * q <= Value(fraction) < s * q + q
  {
    var cut := fraction[FRACTION_DIGITS..];
    assert fraction == Scaled(fraction) + cut;
    ValueConcat(Scaled(fraction), cut);
    ValueBelow(cut);
  }

  lemma ScaledDigits(fraction: string)
    requires IsDigits(fraction)
    ensures IsDigits(Scaled(fraction))
  {
  }

  lemma Power10Eighteen()
    ensures Power10(FRACTION_DIGITS) == WEI_PER_GRAM
  {
    assert Power10(6) == 1_000_000;
    Power10Add(6, 6);
    Power10Add(6, 12);
  }

  lemma ScaledJoin(whole: string, fraction: string)
    requires Plain(whole, fraction)
    ensures IsDigits(Scaled(fraction)) && IsDigits(whole + Scaled(fraction)) && whole + Scaled(fraction) != ""
    ensures Value(whole + Scaled(fraction)) == Value(whole) * WEI_PER_GRAM + Value(Scaled(fraction))
  {
    ScaledDigits(fraction);
    ValueConcat(whole, Scaled(fraction));
    Power10Eighteen();
  }

  lemma ParseUnsigned(s: string)
    requires IsDigits(s) && s != ""
    ensures ParseInt(s) == Some(Value(s))
  {
  }

  lemma NoDot(s: string)
    requires IsDigits(s)
    ensures forall k | 0 <= k < |s| :: s[k] != '.'
  {
  }

  lemma FeeWeiPlain(whole: string, fraction: string)
    requires Plain(whole, fraction)
    ensures IsDigits(Scaled(fraction))
    ensures FeeWei(Text(whole, fraction)) == Some(Value(whole) * WEI_PER_GRAM + Value(Scaled(fraction)))
  {
    hide ParseInt, Split, Value, Scaled;
    NoDot(whole);
    NoDot(fraction);
    SplitOnce(whole, fraction, '.');
    ScaledJoin(whole, fraction);
    ParseUnsigned(whole + Scaled(fraction));
    assert Text(whole, fraction) == whole + ['.'] + fraction;
  }

  /** A missing point changes nothing. */
  lemma PointOptional(grams: string, whole: string, fraction: string)
    requires IsText(grams, whole, fraction)
    ensures FeeWei(grams) == FeeWei(Text(whole, fraction))
  {
    hide ParseInt, Split, Scaled;
    NoDot(whole);
    NoDot(fraction);
    SplitOnce(whole, fraction, '.');
    SplitWithout(whole, '.');
    assert Text(whole, fraction) == whole + ['.'] + fraction;
  }

  lemma TruncationScales(v: nat, f: nat, s: nat, p: nat, w: nat)
    requires s * p <= f * w < s * p + p
    ensures (v * w + s) * p <= (v * p + f) * w < (v * w + s) * p + p
  {
  }

  lemma ShortTruncates(fraction: string, w: nat)
    requires IsDigits(fraction) && |fraction| <= FRACTION_DIGITS && w == Power10(FRACTION_DIGITS)
    ensures IsDigits(Scaled(fraction))
    ensures Value(Scaled(fraction)) * Power10(|fraction|) == Value(fraction) * w
  {
    hide Power10, Value, Scaled;
    ShortScaled(fraction);
    Power10Add(FRACTION_DIGITS - |fraction|, |fraction|);
    Regroup(Value(fraction), Power10(FRACTION_DIGITS - |fraction|), Power10(|fraction|));
  }

  lemma Regroup(f: int, q: int, p: int)
    ensures f * q * p == f * (q * p)
  {
  }

  lemma LongTruncates(fraction: string, w: nat)
    requires IsDigits(fraction) && |fraction| >= FRACTION_DIGITS && w == Power10(FRACTION_DIGITS)
    ensures IsDigits(Scaled(fraction))
    ensures var s, p := Value(Scaled(fraction)), Power10(|fraction|);
            s * p <= Value(fraction) * w < s * p + p
  {
    hide Power10, Value, Scaled;
    LongScaled(fraction);
    Power10Add(|fraction| - FRACTION_DIGITS, FRACTION_DIGITS);
    TruncationTail(Value(Scaled(fraction)), Power10(|fraction| - FRACTION_DIGITS), Value(fraction), w);
  }

  lemma FractionTruncates(fraction: string, w: nat)
    requires IsDigits(fraction) && w == Power10(FRACTION_DIGITS)
    ensures IsDigits(Scaled(fraction))
    ensures var s, p := Value(Scaled(fraction)), Power10(|fraction|);
            s * p <= Value(fraction) * w < s * p + p
  {
    if |fraction| <= FRACTION_DIGITS {
      ShortTruncates(fraction, w);
    } else {
      LongTruncates(fraction, w);
    }
  }

  lemma TruncationTail(s: nat, q: nat, f: nat, w: nat)
    requires s * q <= f < s * q + q && w > 0
    ensures s * (q * w) <= f * w < s * (q * w) + q * w
  {
  }

  /** The parser truncates a plain decimal by less than one wei: with f fraction digits the
      amount is Value(whole + fraction) / 10^f grams. */
  lemma FeeParserTruncates(grams: string, whole: string, fraction: string)
    requires IsText(grams, whole, fraction)
    ensures IsDigits(whole + fraction) && FeeWei(grams).Some?
    ensures var wei, p := FeeWei(grams).value, Power10(|fraction|);
            wei * p <= Value(whole + fraction) * WEI_PER_GRAM < wei * p + p
  {
    hide Power10, Value, Scaled, FeeWei;
    PointOptional(grams, whole, fraction);
    FeeWeiPlain(whole, fraction);
    ValueConcat(whole, fraction);
    Power10Eighteen();
    FractionTruncates(fraction, WEI_PER_GRAM);
    TruncationScales(Value(whole), Value(fraction), Value(Scaled(fraction)), Power10(|fraction|), WEI_PER_GRAM);
  }

  // -------------------------------------------------------------------------- round trips

  const DISPLAY_UNIT: int := 100_000_000_000_000

  lemma PaddedValue(s: string, n: nat)
    requires IsDigits(s)
    ensures IsDigits(PadStart(s, n)) && Value(PadStart(s, n)) == Value(s)
  {
    hide Value;
    if |s| < n {
      ValueZeros(n - |s|);
      ValueConcat(Repeat('0', n - |s|), s);
    }
  }

  lemma PaddedFraction(f: nat)
    requires f < 10_000
    ensures var s := PadStart(Print(f), 4);
            |s| == 4 && IsDigits(s) && Value(s) == f
  {
    assert Power10(4) == 10_000;
    hide Value, Print, Power10;
    PrintLength(f, 4);
    ValuePrint(f);
    PaddedValue(Print(f), 4);
  }

  lemma FourDigitsScaled(fraction: string)
    requires IsDigits(fraction) && |fraction| == 4
    ensures IsDigits(Scaled(fraction)) && Value(Scaled(fraction)) == Value(fraction) * DISPLAY_UNIT
  {
    ShortScaled(fraction);
    assert Power10(7) == 10_000_000;
    Power10Add(7, 7);
  }

  lemma ParsePrinted(w: int)
    ensures ParseInt(PrintInt(w)) == Some(w) && (PrintInt(w)[0] == '-' <==> w < 0)
  {
    ValuePrint(if w < 0 then -w else w);
    if w < 0 {
      assert PrintInt(w)[1..] == Print(-w);
    } else {
      assert IsDigit(Print(w)[0]);
    }
  }

  lemma Displayed(w: int)
    ensures var abs := if w < 0 then -w else w;
            WeiToGrams(PrintInt(w)) == Some(Display(w < 0, WholeGrams(abs), FourDecimals(abs)))
  {
    hide ParseInt, PrintInt, Display, WholeGrams, FourDecimals;
    ParsePrinted(w);
  }

  lemma WeiParts(wei: nat)
    ensures WholeGrams(wei) * WEI_PER_GRAM + FourDecimals(wei) * DISPLAY_UNIT == wei - wei % DISPLAY_UNIT
  {
  }

  lemma WeiFromParts(v: nat, f: nat)
    requires f < 10_000
    ensures WholeGrams(v * WEI_PER_GRAM + f * DISPLAY_UNIT) == v
    ensures FourDecimals(v * WEI_PER_GRAM + f * DISPLAY_UNIT) == f
  {
  }

  lemma SignedDigits(whole: string, fraction: string)
    requires Plain(whole, fraction)
    ensures Split("-" + whole + "." + fraction, '.') == ["-" + whole, fraction]
  {
    var signed := "-" + whole;
    NoDot(whole);
    NoDot(fraction);
    assert forall k | 0 < k < |signed| :: signed[k] == whole[k - 1];
    SplitOnce(signed, fraction, '.');
    assert signed + ['.'] + fraction == "-" + whole + "." + fraction;
  }

  lemma ParseNegated(s: string)
    requires IsDigits(s) && s != ""
    ensures ParseInt("-" + s) == Some(-Value(s))
  {
  }

  lemma FeeWeiNegative(whole: string, fraction: string)
    requires Plain(whole, fraction)
    ensures IsDigits(Scaled(fraction))
    ensures FeeWei("-" + whole + "." + fraction) == Some(-(Value(whole) * WEI_PER_GRAM + Value(Scaled(fraction))))
  {
    hide ParseInt, Split, Value, Scaled;
    SignedDigits(whole, fraction);
    ScaledJoin(whole, fraction);
    ParseNegated(whole + Scaled(fraction));
    assert "-" + whole + Scaled(fraction) == "-" + (whole + Scaled(fraction));
  }

  lemma FeeOfFourDigits(whole: string, fraction: string)
    requires Plain(whole, fraction) && |fraction| == 4
    ensures var wei := Value(whole) * WEI_PER_GRAM + Value(fraction) * DISPLAY_UNIT;
            FeeWei(Text(whole, fraction)) == Some(wei) && FeeWei("-" + whole + "." + fraction) == Some(-wei)
  {
    hide FeeWei;
    FeeWeiPlain(whole, fraction);
    FeeWeiNegative(whole, fraction);
    FourDigitsScaled(fraction);
  }

  lemma FeeOfDisplay(negative: bool, whole: nat, fraction: nat)
    requires fraction < 10_000
    ensures var wei := whole * WEI_PER_GRAM + fraction * DISPLAY_UNIT;
            FeeWei(Display(negative, whole, fraction)) == Some(if negative then -wei else wei)
  {
    hide FeeWei, Print, PadStart, Value;
    var w, f := Print(whole), PadStart(Print(fraction), 4);
    PaddedFraction(fraction);
    ValuePrint(whole);
    FeeOfFourDigits(w, f);
    assert "" + w + "." + f == Text(w, f);
  }

  /** Parsing what the client displays gives the balance back, cut to four decimals. A minus
      sign is carried along. */
  lemma DisplayedBalanceParses(w: int)
    ensures WeiToGrams(PrintInt(w)).Some?
    ensures FeeWei(WeiToGrams(PrintInt(w)).value) ==
            Some(if w >= 0 then w - w % DISPLAY_UNIT else -(-w - -w % DISPLAY_UNIT))
  {
    hide FeeWei, Display;
    var abs := if w < 0 then -w else w;
    Displayed(w);
    WeiParts(abs);
    FeeOfDisplay(w < 0, WholeGrams(abs), FourDecimals(abs));
  }

  /** A canonical amount with four fraction digits survives conversion to wei and display. */
  lemma CanonicalGramsRoundTrip(whole: string, fraction: string)
    requires Canonical(whole) && IsDigits(fraction) && |fraction| == 4
    ensures FeeWei(Text(whole, fraction)).Some?
    ensures WeiToGrams(PrintInt(FeeWei(Text(whole, fraction)).value)) == Some(Text(whole, fraction))
  {
    hide FeeWei, WeiToGrams, Display, WholeGrams, FourDecimals, Value, PrintInt;
    FeeOfFourDigits(whole, fraction);
    ValueBelow(fraction);
    assert Power10(4) == 10_000;
    var v, f := Value(whole), Value(fraction);
    WeiFromParts(v, f);
    Displayed(v * WEI_PER_GRAM + f * DISPLAY_UNIT);
    DisplayOfDigits(whole, fraction);
  }

  lemma DisplayOfDigits(whole: string, fraction: string)
    requires Canonical(whole) && IsDigits(fraction) && |fraction| == 4 && Value(fraction) < 10_000
    ensures Display(false, Value(whole), Value(fraction)) == Text(whole, fraction)
  {
    hide Value, Print, PadStart;
    PrintOfValue(whole);
    PaddedFraction(Value(fraction));
    SameLengthSameValue(PadStart(Print(Value(fraction)), 4), fraction);
  }

  // ----------------------------------------------------------------------- order service

  /** Largest accepted amount in grams. */
  const MAX_GRAMS: real := 1_000_000.0

  /** y is x after one rounding with relative error at most u. */
  predicate Rounds(x: real, y: real, u: real) {
    x - x * u <= y <= x + x * u
  }

  /** The order service's conversion: the parsed amount and the product are each rounded once,
      then the fraction is dropped. None is a rejected amount. */
  predicate OrderWei(grams: real, f: real, product: real, u: real, wei: Option<int>) {
    && Rounds(grams, f, u)
    && Rounds(f * (WEI_PER_GRAM as real), product, u)
    && (if f <= 0.0 || f > MAX_GRAMS || product.Floor <= 0 then wei == None else wei == Some(product.Floor))
  }

  /** The bound asked of the relative error; rounding to 256 bits stays far below it. */
  const ERROR_BOUND: real := 0.00000000000000000000000001

  lemma ScaleReal(k: real, x: real, y: real)
    requires k >= 0.0 && x <= y
    ensures k * x <= k * y && x * k <= y * k
  {
  }

  lemma RoundedOnce(x: real, y: real, u: real, e: real, limit: real)
    requires 0.0 <= u <= e && Rounds(x, y, u) && 0.0 <= x <= limit
    ensures x - e * limit <= y <= x + e * limit
  {
  }

  lemma RoundedAmount(grams: real, f: real, u: real)
    requires 0.0 <= u <= ERROR_BOUND && 0.0 <= grams && f <= MAX_GRAMS && Rounds(grams, f, u)
    ensures grams <= 2.0 * MAX_GRAMS
  {
  }

  lemma RoundedProduct(grams: real, f: real, product: real, u: real, w: real)
    requires 0.0 <= u <= ERROR_BOUND && 0.0 <= grams && 0.0 < f <= MAX_GRAMS
    requires w == 1_000_000_000_000_000_000.0
    requires Rounds(grams, f, u) && Rounds(f * w, product, u)
    ensures grams * w - 1.0 < product < grams * w + 1.0
  {
    RoundedAmount(grams, f, u);
    RoundedOnce(grams, f, u, ERROR_BOUND, 2_000_000.0);
    RoundedOnce(f * w, product, u, ERROR_BOUND, 1_000_000_000_000_000_000_000_000.0);
  }

  /** Value(whole + fraction) / 10^|fraction| as a real number. */
  function Grams(whole: string, fraction: string): real
    requires Plain(whole, fraction)
  {
    ValueConcat(whole, fraction);
    Value(whole + fraction) as real / Power10(|fraction|) as real
  }

  lemma ExactWei(fee: int, g: real, n: nat, p: nat, w: nat)
    requires p > 0 && g * (p as real) == n as real
    requires fee * p <= n * w < fee * p + p
    ensures fee as real <= g * (w as real) < fee as real + 1.0
  {
    var q, x, y := p as real, fee as real, g * (w as real);
    assert (fee * p) as real == x * q;
    assert (n * w) as real == n as real * (w as real) == y * q;
    if y < x {
      StrictReal(q, y, x);
    }
    if y >= x + 1.0 {
      ScaleReal(q, x + 1.0, y);
    }
  }

  lemma GramsScaled(whole: string, fraction: string)
    requires Plain(whole, fraction)
    ensures IsDigits(whole + fraction) && Grams(whole, fraction) >= 0.0
    ensures Grams(whole, fraction) * (Power10(|fraction|) as real) == Value(whole + fraction) as real
  {
    hide Value, Power10;
    ValueConcat(whole, fraction);
  }

  lemma StrictReal(k: real, x: real, y: real)
    requires k > 0.0 && x < y
    ensures k * x < k * y
  {
  }

  /** Rounding to 256 bits has a relative error of at most 2^-256: whenever the order service
      accepts a plain decimal, its wei value and the fee service's exact one differ by at most
      one. */
  lemma OrderAndFeeAgreeToOneWei(grams: string, whole: string, fraction: string, f: real, product: real, u: real, wei: int)
    requires IsText(grams, whole, fraction) && 0.0 <= u <= ERROR_BOUND
    requires OrderWei(Grams(whole, fraction), f, product, u, Some(wei))
    ensures FeeWei(grams).Some?
    ensures -1 <= wei - FeeWei(grams).value <= 1
  {
    hide FeeWei, Power10, Value, Grams, Text;
    FeeParserTruncates(grams, whole, fraction);
    GramsScaled(whole, fraction);
    var fee := FeeWei(grams).value;
    var p, n := Power10(|fraction|), Value(whole + fraction);
    var g := Grams(whole, fraction);
    RoundedProduct(g, f, product, u, WEI_PER_GRAM as real);
    ExactWei(fee, g, n, p, WEI_PER_GRAM);
  }
}

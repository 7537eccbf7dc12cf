/** internal/api/spot_contract.go: the USDC/cNGN order-entry contract. A UI order states a price in
    cNGN per USDC and a size in USDC; the engine works with the reciprocal price, the cNGN amount
    and the opposite side. */
module SpotContract {
  import opened Arith
  import opened DecimalText
  import opened Orders
  import opened Wrappers
  import Pricing

  datatype Ratio = Ratio(num: int, den: nat)

  /** big.Rat, up to lowest terms: nothing below depends on the representative. */
  type Rational = r: Ratio | r.den > 0 witness Ratio(0, 1)

  predicate Equal(a: Rational, b: Rational) { a.num * b.den == b.num * a.den }

  function Mul(a: Rational, b: Rational): Rational {
    Ratio(a.num * b.num, Pricing.Product(a.den, b.den))
  }

  function Inv(a: Rational): Rational
    requires a.num > 0
  {
    Ratio(a.den, a.num)
  }

  function Neg(a: Rational): Rational { Ratio(-a.num, a.den) }

  function OfFraction(f: Fraction): Rational { Ratio(f.numerator, f.Denominator()) }

  // ---------------------------------------------------------------- the rounding printer

  /** floor(v * 10^scale + 1/2). */
  function RoundedUnits(v: Rational, scale: nat): nat
    requires v.num >= 0
  {
    Quo(2 * (v.num * Pow10(scale)) + v.den, 2 * v.den)
  }

  function DecimalOf(v: Rational, scale: nat): string
    requires v.num >= 0
  {
    FixedText(RoundedUnits(v, scale), scale)
  }

  /** The number of units printed is the one whose distance to v is below half a unit, the upper
      one on a tie. */
  lemma RoundedIff(v: Rational, scale: nat, q: int)
    requires v.num >= 0
    ensures q == RoundedUnits(v, scale)
            <==> 2 * (v.num * Pow10(scale)) - v.den < 2 * (q * v.den) <= 2 * (v.num * Pow10(scale)) + v.den
  {
    hide Pow10, Quo, Rem;
    var n, d := 2 * (v.num * Pow10(scale)) + v.den, 2 * v.den;
    assert 2 * (q * v.den) == q * d;
    QuoRem(n, d);
    if n - d < q * d <= n {
      QuoRemUnique(n, d, q, n - q * d);
    }
  }

  /** No multiple of 10^-scale is nearer, and the error is at most half of 10^-scale. */
  lemma RoundedIsNearest(v: Rational, scale: nat, k: int)
    requires v.num >= 0
    ensures var q, n := RoundedUnits(v, scale), v.num * Pow10(scale);
            && 2 * Abs(q * v.den - n) <= v.den
            && Abs(q * v.den - n) <= Abs(k * v.den - n)
  {
    hide Pow10, RoundedUnits;
    var q: int := RoundedUnits(v, scale);
    RoundedIff(v, scale, q);
    if k < q { MulMono(k, q - 1, v.den); assert (q - 1) * v.den == q * v.den - v.den; }
    if k > q { MulMono(q + 1, k, v.den); assert (q + 1) * v.den == q * v.den + v.den; }
    Nearer(q * v.den, k * v.den, v.num * Pow10(scale), v.den);
  }

  lemma Nearer(x: int, y: int, n: int, d: int)
    requires 2 * n - d < 2 * x <= 2 * n + d
    requires y <= x - d || y == x || y >= x + d
    ensures 2 * Abs(x - n) <= d && Abs(x - n) <= Abs(y - n)
  {
  }

  lemma RoundedFromQuoRem(v: Rational, scale: nat, q: int, r: int)
    requires v.num >= 0 && v.num * Pow10(scale) == q * v.den + r && 0 <= r < v.den
    ensures RoundedUnits(v, scale) == if r * 2 >= v.den then q + 1 else q
  {
    hide Pow10, RoundedUnits;
    assert (q + 1) * v.den == q * v.den + v.den;
    RoundedIff(v, scale, q);
    RoundedIff(v, scale, q + 1);
  }

  function Abs(n: int): int { if n < 0 then -n else n }

  lemma RoundedByValue(a: Rational, b: Rational, scale: nat)
    requires a.num >= 0 && b.num >= 0 && Equal(a, b)
    ensures RoundedUnits(a, scale) == RoundedUnits(b, scale)
  {
    hide Pow10, RoundedUnits;
    var q, p := RoundedUnits(a, scale), Pow10(scale);
    RoundedIff(a, scale, q);
    RoundedIff(b, scale, q);
    ErrorByValue(a.num, a.den, b.num, b.den, p, q);
    ErrorWithin(2 * (a.num * p) - 2 * (q * a.den), 2 * (b.num * p) - 2 * (q * b.den), a.den, b.den);
  }

  lemma ErrorByValue(an: int, ad: nat, bn: int, bd: nat, p: nat, q: nat)
    requires an * bd == bn * ad
    ensures (2 * (an * p) - 2 * (q * ad)) * bd == (2 * (bn * p) - 2 * (q * bd)) * ad
  {
    calc {
      (an * p) * bd;
      (an * bd) * p;
      (bn * p) * ad;
    }
    assert (q * ad) * bd == (q * bd) * ad;
  }

  lemma ErrorWithin(x: int, y: int, d: int, e: int)
    requires d > 0 && e > 0 && x * e == y * d && -d <= x < d
    ensures -e <= y < e
  {
    if y >= e {
      MulMono(e, y, d);
      MulMono(x + 1, d, e);
    }
    if y < -e {
      MulMono(y + 1, -e, d);
      MulMono(-d, x, e);
    }
  }

  lemma RoundedFixed(q: nat, scale: nat)
    ensures RoundedUnits(Ratio(q, Pow10(scale)), scale) == q
  {
    hide Pow10, RoundedUnits;
    RoundedIff(Ratio(q, Pow10(scale)), scale, q);
  }

  /** The value of a plain decimal text; big.Rat reads such texts alike. */
  function ReadDecimal(text: string): Option<Rational> {
    match DecimalToFraction(text)
    case Ok(f) => Some(OfFraction(f))
    case Err(_) => None
  }

  lemma ReadFixed(q: nat, scale: nat)
    ensures ReadDecimal(FixedText(q, scale)).Some?
    ensures ReadDecimal(FixedText(q, scale)).value.num >= 0
    ensures Equal(ReadDecimal(FixedText(q, scale)).value, Ratio(q, Pow10(scale)))
  {
    hide FixedText, DecimalToFraction, Pow10;
    FixedTextValue(q, scale);
  }

  lemma FormatIsIdempotent(v: Rational, scale: nat)
    requires v.num >= 0
    ensures ReadDecimal(DecimalOf(v, scale)).Some? && ReadDecimal(DecimalOf(v, scale)).value.num >= 0
    ensures DecimalOf(ReadDecimal(DecimalOf(v, scale)).value, scale) == DecimalOf(v, scale)
  {
    hide FixedText, ReadDecimal, RoundedUnits, Pow10;
    var q := RoundedUnits(v, scale);
    ReadFixed(q, scale);
    RoundedFixed(q, scale);
    RoundedByValue(ReadDecimal(FixedText(q, scale)).value, Ratio(q, Pow10(scale)), scale);
  }

  /** The spot market's converter. */
  function SpotConverter(quotePrecision: int): (c: Pricing.Converter)
    ensures Pricing.NewConverter(Pricing.SPOT_TICK, quotePrecision) == Ok(c) && c.tick == Fraction(1, 18) && c.Usable()
  {
    Pricing.SpotTick(quotePrecision);
    Pricing.NewConverter(Pricing.SPOT_TICK, quotePrecision).value
  }

  /** The 10^-18 tick converter of the spot market accepts an 18-decimal engine price exactly when
      the value is at least half a unit, returns the rounded units and prints the same text. */
  lemma EnginePriceParses(v: Rational, quotePrecision: int)
    requires v.num >= 0
    ensures Pricing.NewConverter(Pricing.SPOT_TICK, quotePrecision).Ok?
    ensures SpotConverter(quotePrecision).Parse(DecimalOf(v, 18)).Ok? <==> 2 * (v.num * Pow10(18)) >= v.den
    ensures SpotConverter(quotePrecision).Parse(DecimalOf(v, 18)).Ok?
            ==> SpotConverter(quotePrecision).Parse(DecimalOf(v, 18)) == Ok((NatText(RoundedUnits(v, 18)),
              DecimalOf(v, 18)))
  {
    hide Pricing.Converter.Parse, Pricing.Converter.TickText, FixedText, RoundedUnits, Pow10, NatText,
        DecimalToFraction;
    var c := SpotConverter(quotePrecision);
    var q := RoundedUnits(v, 18);
    RoundedIff(v, 18, q);
    RoundedIff(v, 18, 0);
    Pricing.TickTextIsCanonical(c, q);
    assert c.TickText(q) == DecimalOf(v, 18);
    if q >= 1 {
      Pricing.ParseUndoesFormat(c, q);
    } else {
      FixedTextValue(0, 18);
      Pricing.ParseIsExact(c, FixedText(0, 18), 0);
      var f := DecimalToFraction(FixedText(0, 18)).value;
      if f.numerator != 0 { MulMono(1, f.numerator, Pow10(18)); }
    }
  }

  method FormatDecimal(value: Rational, scale: nat) returns (text: string)
    requires value.num >= 0
    ensures text == DecimalOf(value, scale)
  {
    hide FixedText, NatText, TrimRightZeros, ZeroPad, Pow10, RoundedUnits, Quo, Rem;
    var scaledNumerator := value.num * Pow10(scale);
    var quotient, remainder := Quo(scaledNumerator, value.den), Rem(scaledNumerator, value.den);
    QuoRem(scaledNumerator, value.den);
    RoundedFromQuoRem(value, scale, quotient, remainder);
    var doubleRemainder := remainder * 2;
    if doubleRemainder >= value.den {
      quotient := quotient + 1;
    }
    var whole, fraction := Quo(quotient, Pow10(scale)), Rem(quotient, Pow10(scale));
    var fractionDigits := NatText(fraction);
    if |fractionDigits| < scale {
      fractionDigits := Zeros(scale - |fractionDigits|) + fractionDigits;
    }
    assert fractionDigits == ZeroPad(NatText(fraction), scale) by { PadIs(NatText(fraction), scale); }
    fractionDigits := TrimRightZeros(fractionDigits);
    FixedTextParts(quotient, scale);
    if fractionDigits == "" {
      return NatText(whole);
    }
    return NatText(whole) + "." + fractionDigits;
  }

  lemma PadIs(s: string, width: nat)
    ensures ZeroPad(s, width) == if |s| < width then Zeros(width - |s|) + s else s
  {
  }

  lemma FixedTextParts(q: nat, scale: nat)
    ensures var d := TrimRightZeros(ZeroPad(NatText(Rem(q, Pow10(scale))), scale));
            FixedText(q, scale) == NatText(Quo(q, Pow10(scale))) + if d == "" then "" else "." + d
  {
    hide NatText, TrimRightZeros, ZeroPad, Pow10, Quo, Rem;
    var d := TrimRightZeros(ZeroPad(NatText(Rem(q, Pow10(scale))), scale));
    var w := NatText(Quo(q, Pow10(scale)));
    assert w + "" == w;
    assert w + ("." + d) == w + "." + d;
  }

  // ---------------------------------------------------------------- the contract

  datatype SpotError = BadDecimal | NotPositive

  datatype Echo = Echo(uiSide: Side, uiPrice: string, uiSize: string,
                       engineSide: Side, enginePrice: string, engineAmount: string,
                       usdc: string, cngn: string)

  function SignedText(positive: bool, magnitude: Rational, scale: nat): string
    requires magnitude.num >= 0
  {
    (if positive then "+" else "-") + DecimalOf(magnitude, scale)
  }

  method FormatSignedDecimal(value: Rational, scale: nat) returns (text: string)
    ensures text == if value.num >= 0 then SignedText(true, value, scale) else SignedText(false, Neg(value), scale)
  {
    if value.num >= 0 {
      var digits := FormatDecimal(value, scale);
      return "+" + digits;
    }
    var digits := FormatDecimal(Neg(value), scale);
    return "-" + digits;
  }

  /** What a UI order of positive price and size means: the taker of USDC sells cNGN. */
  function Translated(uiSide: Side, price: Rational, size: Rational): Echo
    requires price.num > 0 && size.num > 0
  {
    var amount := Mul(size, price);
    assert amount.num > 0 by { MulMono(1, size.num, price.num); }
    Echo(uiSide, DecimalOf(price, 18), DecimalOf(size, 18),
         uiSide.Opposite(), DecimalOf(Inv(price), 18), DecimalOf(amount, 18),
         SignedText(uiSide.Buy?, size, 6), SignedText(uiSide.Sell?, amount, 6))
  }

  /** What an engine order of positive price and amount means to the UI. */
  function Derived(engineSide: Side, price: Rational, amount: Rational): Echo
    requires price.num > 0 && amount.num > 0
  {
    var size := Mul(amount, price);
    assert size.num > 0 by { MulMono(1, amount.num, price.num); }
    var uiSide := engineSide.Opposite();
    Echo(uiSide, DecimalOf(Inv(price), 6), DecimalOf(size, 6),
         engineSide, DecimalOf(price, 18), DecimalOf(amount, 18),
         SignedText(uiSide.Buy?, size, 6), SignedText(uiSide.Sell?, amount, 6))
  }

  /** A text that reads as a decimal at most half a unit of 10^-scale from v. */
  predicate Near(text: string, v: Rational, scale: nat) {
    match ReadDecimal(text)
    case None => false
    case Some(r) => 2 * (Abs(r.num * v.den - v.num * r.den) * Pow10(scale)) <= r.den * v.den
  }

  lemma PrintedIsNear(v: Rational, scale: nat)
    requires v.num >= 0
    ensures Near(DecimalOf(v, scale), v, scale)
  {
    var q := RoundedUnits(v, scale);
    hide FixedText, ReadDecimal, RoundedUnits, Pow10;
    RoundedIsNearest(v, scale, 0);
    ReadFixed(q, scale);
    var r := ReadDecimal(FixedText(q, scale)).value;
    NearByUnits(r.num, r.den, v.num, v.den, q, Pow10(scale));
  }

  lemma NearByUnits(rn: int, rd: nat, vn: int, vd: nat, q: int, p: nat)
    requires rd > 0 && vd > 0 && p > 0 && rn * p == q * rd && 2 * Abs(q * vd - vn * p) <= vd
    ensures 2 * (Abs(rn * vd - vn * rd) * p) <= rd * vd
  {
    calc {
      (rn * vd - vn * rd) * p;
      (rn * p) * vd - (vn * p) * rd;
      (q * rd) * vd - (vn * p) * rd;
      (q * vd - vn * p) * rd;
    }
    AbsScales(rn * vd - vn * rd, p);
    AbsScales(q * vd - vn * p, rd);
    MulMono(2 * Abs(q * vd - vn * p), vd, rd);
  }

  lemma AbsScales(d: int, b: nat)
    ensures Abs(d) * b == Abs(d * b)
  {
    if d >= 0 { MulMono(0, d, b); } else { MulMono(d, 0, b); }
  }

  predicate SignedNear(text: string, sign: char, v: Rational, scale: nat) {
    text != "" && text[0] == sign && Near(text[1..], v, scale)
  }

  /** A UI buyer of USDC sells the engine's asset and receives USDC for cNGN; a UI seller the other
      way round. The engine price is the reciprocal, the engine amount size times price. */
  lemma TranslatedMeans(uiSide: Side, price: Rational, size: Rational)
    requires price.num > 0 && size.num > 0
    ensures var e := Translated(uiSide, price, size);
            && e.uiSide == uiSide && Near(e.uiPrice, price, 18) && Near(e.uiSize, size, 18)
            && (e.engineSide == if uiSide == Buy then Sell else Buy)
            && Near(e.enginePrice, Ratio(price.den, price.num), 18)
            && Near(e.engineAmount, Ratio(size.num * price.num, Pricing.Product(size.den, price.den)), 18)
            && SignedNear(e.usdc, if uiSide == Buy then '+' else '-', size, 6)
            && SignedNear(e.cngn, if uiSide == Buy then '-' else '+',
                 Ratio(size.num * price.num, Pricing.Product(size.den, price.den)), 6)
  {
    MulMono(1, size.num, price.num);
    hide DecimalOf, Near;
    PrintedIsNear(price, 18);
    PrintedIsNear(size, 18);
    PrintedIsNear(Inv(price), 18);
    PrintedIsNear(Mul(size, price), 18);
    PrintedIsNear(size, 6);
    PrintedIsNear(Mul(size, price), 6);
    SignedIs(uiSide.Buy?, size, 6);
    SignedIs(uiSide.Sell?, Mul(size, price), 6);
  }

  lemma SignedIs(positive: bool, v: Rational, scale: nat)
    requires v.num >= 0
    ensures var t := SignedText(positive, v, scale);
            t != "" && t[0] == (if positive then '+' else '-') && t[1..] == DecimalOf(v, scale)
  {
    hide DecimalOf;
  }

  /** An engine sell is a UI buy; the UI price is the reciprocal and the UI size amount times price. */
  lemma DerivedMeans(engineSide: Side, price: Rational, amount: Rational)
    requires price.num > 0 && amount.num > 0
    ensures var e := Derived(engineSide, price, amount);
            var size := Ratio(amount.num * price.num, Pricing.Product(amount.den, price.den));
            && (e.uiSide == if engineSide == Sell then Buy else Sell) && e.engineSide == engineSide
            && Near(e.uiPrice, Ratio(price.den, price.num), 6) && Near(e.uiSize, size, 6)
            && Near(e.enginePrice, price, 18) && Near(e.engineAmount, amount, 18)
            && SignedNear(e.usdc, if engineSide == Sell then '+' else '-', size, 6)
            && SignedNear(e.cngn, if engineSide == Sell then '-' else '+', amount, 6)
  {
    MulMono(1, amount.num, price.num);
    hide DecimalOf, Near;
    PrintedIsNear(price, 18);
    PrintedIsNear(amount, 18);
    PrintedIsNear(Inv(price), 6);
    PrintedIsNear(Mul(amount, price), 6);
    PrintedIsNear(amount, 6);
    SignedIs(engineSide.Sell?, Mul(amount, price), 6);
    SignedIs(engineSide.Buy?, amount, 6);
  }

  method TranslateSpotUIIntent(uiSide: Side, uiPrice: Option<Rational>, uiSize: Option<Rational>)
    returns (r: Result<Echo, SpotError>)
    ensures r == match (uiPrice, uiSize)
                 case (None, _) => Err(BadDecimal)
                 case (Some(p), None) => if p.num <= 0 then Err(NotPositive) else Err(BadDecimal)
                 case (Some(p), Some(s)) => if p.num <= 0
                   || s.num <= 0 then Err(NotPositive) else Ok(Translated(uiSide, p, s))
  {
    hide DecimalOf;
    if uiPrice.None? { return Err(BadDecimal); }
    if uiPrice.value.num <= 0 { return Err(NotPositive); }
    if uiSize.None? { return Err(BadDecimal); }
    if uiSize.value.num <= 0 { return Err(NotPositive); }
    var price, size := uiPrice.value, uiSize.value;
    MulMono(1, size.num, price.num);

    var engineAmount := Mul(size, price);
    var engineSide := Buy;
    if uiSide == Buy {
      engineSide := Sell;
    }
    var usdcDelta := size;
    var cngnDelta := Neg(engineAmount);
    if uiSide == Sell {
      usdcDelta := Neg(usdcDelta);
      cngnDelta := Neg(cngnDelta);
    }
    assert Neg(Neg(engineAmount)) == engineAmount && Neg(Neg(size)) == size;
    var priceText := FormatDecimal(price, 18);
    var sizeText := FormatDecimal(size, 18);
    var enginePriceText := FormatDecimal(Inv(price), 18);
    var engineAmountText := FormatDecimal(engineAmount, 18);
    var usdc := FormatSignedDecimal(usdcDelta, 6);
    var cngn := FormatSignedDecimal(cngnDelta, 6);
    return Ok(Echo(uiSide, priceText, sizeText, engineSide, enginePriceText, engineAmountText, usdc, cngn));
  }

  function DeriveFromText(engineSide: Side, enginePrice: string, engineAmount: string): Result<Echo, SpotError> {
    match (ReadDecimal(enginePrice), ReadDecimal(engineAmount))
    case (None, _) => Err(BadDecimal)
    case (Some(p), None) => if p.num <= 0 then Err(NotPositive) else Err(BadDecimal)
    case (Some(p), Some(a)) => if p.num <= 0 || a.num <= 0 then Err(NotPositive) else Ok(Derived(engineSide, p, a))
  }

  method DeriveSpotOrderContractEchoFromEngine(engineSide: Side, enginePrice: string, engineAmount: string)
    returns (r: Result<Echo, SpotError>)
    ensures r == DeriveFromText(engineSide, enginePrice, engineAmount)
    ensures var (p, a) := (ReadDecimal(enginePrice), ReadDecimal(engineAmount));
            && (r == Err(BadDecimal) <==> p.None? || (p.value.num > 0 && a.None?))
            && (r == Err(NotPositive) <==> p.Some? && (p.value.num <= 0 || (a.Some? && a.value.num <= 0)))
            && (r.Ok? ==> r.value == Derived(engineSide, p.value, a.value))
  {
    hide DecimalOf, DecimalToFraction;
    var priceValue := ReadDecimal(enginePrice);
    if priceValue.None? { return Err(BadDecimal); }
    if priceValue.value.num <= 0 { return Err(NotPositive); }
    var amountValue := ReadDecimal(engineAmount);
    if amountValue.None? { return Err(BadDecimal); }
    if amountValue.value.num <= 0 { return Err(NotPositive); }
    var price, amount := priceValue.value, amountValue.value;
    MulMono(1, amount.num, price.num);

    var uiSize := Mul(amount, price);
    var uiSide := Sell;
    if engineSide == Sell {
      uiSide := Buy;
    }
    var usdcDelta := uiSize;
    var cngnDelta := Neg(amount);
    if uiSide == Sell {
      usdcDelta := Neg(usdcDelta);
      cngnDelta := Neg(cngnDelta);
    }
    assert Neg(Neg(amount)) == amount && Neg(Neg(uiSize)) == uiSize;
    var priceText := FormatDecimal(Inv(price), 6);
    var sizeText := FormatDecimal(uiSize, 6);
    var enginePriceText := FormatDecimal(price, 18);
    var engineAmountText := FormatDecimal(amount, 18);
    var usdc := FormatSignedDecimal(usdcDelta, 6);
    var cngn := FormatSignedDecimal(cngnDelta, 6);
    return Ok(Echo(uiSide, priceText, sizeText, engineSide, enginePriceText, engineAmountText, usdc, cngn));
  }

  // ---------------------------------------------------------------- the round trip

  const MICRO := 1_000_000
  const ENGINE := 1_000_000_000_000_000_000
  const MILLION_MICRO := 1_000_000_000_000
  const UNITY := 1_000_000_000_000_000_000_000_000

  /** The engine price, in 10^-18, of a UI price of p millionths. */
  function EngineTicks(p: int): int
    requires p > 0
  {
    RoundedUnits(Ratio(MICRO, p), 18)
  }

  /** How far engine price times UI price is from one, in 10^-24. */
  function Residual(p: int): int
    requires p > 0
  {
    p * EngineTicks(p) - UNITY
  }

  lemma Powers()
    ensures Pow10(6) == MICRO && Pow10(18) == ENGINE && MICRO * ENGINE == UNITY
  {
  }

  /** Rounding the reciprocal to 18 decimals leaves at most half a unit of 10^-18 in the engine
      price; so the price derived back is off by at most d p^2 / (1 - d p) and the size by at most
      d size p, with d = 5 * 10^-19 (here in millionths and without denominators). */
  lemma ResidualBound(p: int, size: nat)
    requires p > 0
    ensures -p <= 2 * Residual(p) <= p
    ensures 2 * Abs(size * (p * EngineTicks(p)) - size * UNITY) <= size * p
    ensures Abs(UNITY - p * EngineTicks(p)) * (2 * UNITY - p) <= (p * p) * EngineTicks(p)
  {
    hide Pow10, RoundedUnits;
    Powers();
    var e, r := EngineTicks(p), Residual(p);
    RoundedIff(Ratio(MICRO, p), 18, e);
    assert e * p == p * e;
    assert size * (p * e) - size * UNITY == size * r;
    if r >= 0 { MulMono(2 * r, p, size); } else { MulMono(-2 * r, p, size); }
    PriceError(p, e, Abs(r));
  }

  lemma PriceError(p: int, e: int, r: int)
    requires p >= 0 && e >= 0 && r >= 0
    requires 2 * r <= p && 2 * UNITY - p <= 2 * (p * e)
    ensures r * (2 * UNITY - p) <= (p * p) * e
  {
    if 2 * UNITY - p >= 0 {
      MulMono(2 * UNITY - p, 2 * (p * e), r);
      MulMono(2 * r, p, p * e);
      assert (2 * r) * (p * e) == r * (2 * (p * e));
      assert p * (p * e) == (p * p) * e;
    } else {
      MulMono(2 * UNITY - p, 0, r);
      MulMono(0, p * p, e);
    }
  }

  /** The derived UI price, in millionths, is the stated one exactly when the residual stays
      within half an engine tick of zero. */
  lemma PriceRecoversIff(p: int)
    requires p > 0 && EngineTicks(p) > 0
    ensures RoundedUnits(Ratio(ENGINE, EngineTicks(p)), 6) == p
            <==> -EngineTicks(p) < 2 * Residual(p) <= EngineTicks(p)
  {
    hide Pow10, EngineTicks, RoundedUnits;
    Powers();
    RoundedIff(Ratio(ENGINE, EngineTicks(p)), 6, p);
  }

  /** The derived UI size, in millionths, is the stated one exactly when the residual times the
      size stays below half of unity. */
  lemma SizeRecoversIff(p: int, size: nat)
    requires p > 0
    ensures size * (p * EngineTicks(p)) >= 0
    ensures RoundedUnits(Ratio(size * (p * EngineTicks(p)), UNITY * MICRO), 6) == size
            <==> -UNITY <= 2 * (size * Residual(p)) < UNITY
  {
    assert EngineTicks(p) >= 0;
    hide Pow10, EngineTicks, RoundedUnits;
    Powers();
    MulMono(0, p, EngineTicks(p));
    MulMono(0, size, p * EngineTicks(p));
    var x := size * (p * EngineTicks(p));
    RoundedIff(Ratio(x, UNITY * MICRO), 6, size);
    assert size * Residual(p) == x - size * UNITY;
  }

  lemma FixedTextInjective(q: nat, r: nat, scale: nat)
    ensures FixedText(q, scale) == FixedText(r, scale) <==> q == r
  {
    hide FixedText, DecimalToFraction, Pow10;
    FixedTextValue(q, scale);
    FixedTextValue(r, scale);
    if FixedText(q, scale) == FixedText(r, scale) {
      var f := DecimalToFraction(FixedText(q, scale)).value;
      MulCancel(q, r, f.Denominator());
    }
  }

  /** A value of at most six decimals prints the same at 6 and at 18 decimals. */
  lemma SixDecimalText(v: Rational, q: nat)
    requires v.num >= 0 && Equal(v, Ratio(q, MICRO))
    ensures DecimalOf(v, 18) == FixedText(q, 6) && DecimalOf(v, 6) == FixedText(q, 6)
  {
    var q' := q * 1_000_000_000_000;
    assert q' * Pow10(6) == q * Pow10(18) by { Powers(); }
    hide Pow10, RoundedUnits, FixedText;
    Powers();
    RoundedFixed(q, 6);
    RoundedByValue(v, Ratio(q, Pow10(6)), 6);
    RoundedFixed(q', 18);
    RoundedByValue(v, Ratio(q', Pow10(18)), 18);
    FixedTextByValue(q', 18, q, 6);
  }

  lemma InverseValue(v: Rational, w: Rational)
    requires v.num > 0 && w.num > 0 && Equal(v, w)
    ensures Equal(Inv(v), Inv(w))
  {
  }

  lemma ProductValue(a: Rational, b: Rational, c: Rational, d: Rational)
    requires Equal(a, c) && Equal(b, d)
    ensures Equal(Mul(a, b), Mul(c, d))
  {
    calc {
      (a.num * b.num) * (c.den * d.den);
      (a.num * c.den) * (b.num * d.den);
      (c.num * a.den) * (d.num * b.den);
      (c.num * d.num) * (a.den * b.den);
    }
  }

  lemma PositiveValue(v: Rational, w: Rational)
    requires Equal(v, w)
    ensures v.num > 0 <==> w.num > 0
  {
    if v.num > 0 { MulMono(1, v.num, w.den); }
    if w.num > 0 { MulMono(1, w.num, v.den); }
    if v.num <= 0 { MulMono(v.num, 0, w.den); }
    if w.num <= 0 { MulMono(w.num, 0, v.den); }
  }

  lemma EqualTransitive(a: Rational, b: Rational, c: Rational)
    requires Equal(a, b) && Equal(b, c)
    ensures Equal(a, c)
  {
    calc {
      (a.num * c.den) * b.den;
      (a.num * b.den) * c.den;
      (b.num * a.den) * c.den;
      (b.num * c.den) * a.den;
      (c.num * b.den) * a.den;
      (c.num * a.den) * b.den;
    }
    MulCancel(a.num * c.den, c.num * a.den, b.den);
  }

  lemma AmountValue(price: Rational, size: Rational, p: int, s: int)
    requires p > 0 && s > 0 && price.num > 0 && size.num > 0
    requires Equal(price, Ratio(p, MICRO)) && Equal(size, Ratio(s, MICRO))
    ensures s * p > 0 && Mul(size, price).num > 0
    ensures Equal(Mul(size, price), Ratio(s * p * MICRO, ENGINE))
  {
    MulMono(1, s, p);
    MulMono(1, size.num, price.num);
    ProductValue(size, price, Ratio(s, MICRO), Ratio(p, MICRO));
    var a := s * p * MICRO;
    assert Equal(Mul(Ratio(s, MICRO), Ratio(p, MICRO)), Ratio(a, ENGINE));
    EqualTransitive(Mul(size, price), Mul(Ratio(s, MICRO), Ratio(p, MICRO)), Ratio(a, ENGINE));
  }

  lemma ExactText(v: Rational, q: nat, scale: nat)
    requires v.num >= 0 && Equal(v, Ratio(q, Pow10(scale)))
    ensures DecimalOf(v, scale) == FixedText(q, scale)
  {
    hide Pow10, RoundedUnits, FixedText;
    RoundedFixed(q, scale);
    RoundedByValue(v, Ratio(q, Pow10(scale)), scale);
  }

  lemma EnginePriceText(price: Rational, p: int)
    requires p > 0 && price.num > 0 && Equal(price, Ratio(p, MICRO))
    ensures EngineTicks(p) >= 0 && DecimalOf(Inv(price), 18) == FixedText(EngineTicks(p), 18)
  {
    hide Pow10, RoundedUnits, FixedText;
    InverseValue(price, Ratio(p, MICRO));
    RoundedByValue(Inv(price), Ratio(MICRO, p), 18);
  }

  /** The texts of a UI order with p and s millionths. */
  lemma TranslatedTexts(uiSide: Side, price: Rational, size: Rational, p: int, s: int)
    requires p > 0 && s > 0 && price.num > 0 && size.num > 0
    requires Equal(price, Ratio(p, MICRO)) && Equal(size, Ratio(s, MICRO))
    ensures EngineTicks(p) >= 0 && s * p > 0
    ensures var e := Translated(uiSide, price, size);
            && e.uiPrice == FixedText(p, 6) && e.uiSize == FixedText(s, 6)
            && e.enginePrice == FixedText(EngineTicks(p), 18)
            && e.engineAmount == FixedText(s * p * MICRO, 18)
            && e.usdc == (if uiSide.Buy? then "+" else "-") + FixedText(s, 6)
  {
    Powers();
    hide Pow10, DecimalOf, FixedText, Equal, Mul, Inv, EngineTicks;
    SixDecimalText(price, p);
    SixDecimalText(size, s);
    EnginePriceText(price, p);
    AmountValue(price, size, p, s);
    ExactText(Mul(size, price), s * p * MICRO, 18);
  }

  /** The numbers behind the texts that the derivation prints. */
  lemma DerivedUnits(ep: Rational, ea: Rational, p: int, s: int)
    requires p > 0 && s > 0 && EngineTicks(p) > 0 && ep.num > 0 && ea.num > 0
    requires Equal(ep, Ratio(EngineTicks(p), ENGINE)) && Equal(ea, Ratio(s * p * MICRO, ENGINE))
    ensures Mul(ea, ep).num > 0 && s * (p * EngineTicks(p)) >= 0
    ensures RoundedUnits(Inv(ep), 6) == RoundedUnits(Ratio(ENGINE, EngineTicks(p)), 6)
    ensures RoundedUnits(Mul(ea, ep), 6) == RoundedUnits(Ratio(s * (p * EngineTicks(p)), UNITY * MICRO), 6)
  {
    hide Pow10, RoundedUnits, EngineTicks;
    var e := EngineTicks(p);
    InverseValue(ep, Ratio(e, ENGINE));
    RoundedByValue(Inv(ep), Ratio(ENGINE, e), 6);
    MulMono(1, ea.num, ep.num);
    MulMono(0, p, e);
    MulMono(0, s, p * e);
    ProductValue(ea, ep, Ratio(s * p * MICRO, ENGINE), Ratio(e, ENGINE));
    var x := s * (p * e);
    assert (s * p * MICRO) * e == x * MICRO;
    assert Equal(Mul(Ratio(s * p * MICRO, ENGINE), Ratio(e, ENGINE)), Ratio(x, UNITY * MICRO));
    EqualTransitive(Mul(ea, ep), Mul(Ratio(s * p * MICRO, ENGINE), Ratio(e, ENGINE)), Ratio(x, UNITY * MICRO));
    RoundedByValue(Mul(ea, ep), Ratio(x, UNITY * MICRO), 6);
  }

  /** What a caller can check before translating: both roundings land back on the UI's numbers. */
  predicate Recoverable(p: int, s: int)
    requires p > 0
  {
    && EngineTicks(p) > 0
    && -EngineTicks(p) < 2 * Residual(p) <= EngineTicks(p)
    && -UNITY <= 2 * (s * Residual(p)) < UNITY
  }

  /** Translating a UI order and deriving it back reproduces the whole record, text for text,
      exactly when the order is recoverable. */
  lemma RoundTripIff(uiSide: Side, price: Rational, size: Rational, p: int, s: int)
    requires p > 0 && s > 0 && price.num > 0 && size.num > 0
    requires Equal(price, Ratio(p, MICRO)) && Equal(size, Ratio(s, MICRO))
    ensures var e := Translated(uiSide, price, size);
            DeriveFromText(e.engineSide, e.enginePrice, e.engineAmount) == Ok(e) <==> Recoverable(p, s)
  {
    var e := Translated(uiSide, price, size);
    var et, amount := EngineTicks(p), s * p * MICRO;
    TranslatedTexts(uiSide, price, size, p, s);
    AmountValue(price, size, p, s);
    Powers();
    hide Pow10, RoundedUnits, FixedText, EngineTicks, ReadDecimal, Equal, Mul, Inv;
    ReadFixed(et, 18);
    ReadFixed(amount, 18);
    var ep, ea := ReadDecimal(e.enginePrice).value, ReadDecimal(e.engineAmount).value;
    PositiveValue(ep, Ratio(et, ENGINE));
    PositiveValue(ea, Ratio(amount, ENGINE));
    if et > 0 {
      DerivedMatches(uiSide, price, size, ep, ea, p, s);
    }
  }

  lemma DerivedMatches(uiSide: Side, price: Rational, size: Rational, ep: Rational, ea: Rational, p: int, s: int)
    requires p > 0 && s > 0 && price.num > 0 && size.num > 0 && ep.num > 0 && ea.num > 0 && EngineTicks(p) > 0
    requires Equal(price, Ratio(p, MICRO)) && Equal(size, Ratio(s, MICRO))
    requires Equal(ep, Ratio(EngineTicks(p), ENGINE)) && Equal(ea, Ratio(s * p * MICRO, ENGINE))
    requires ReadDecimal(Translated(uiSide, price, size).enginePrice) == Some(ep)
    requires ReadDecimal(Translated(uiSide, price, size).engineAmount) == Some(ea)
    ensures Derived(uiSide.Opposite(), ep, ea) == Translated(uiSide, price, size) <==> Recoverable(p, s)
  {
    var e := Translated(uiSide, price, size);
    TranslatedTexts(uiSide, price, size, p, s);
    AmountValue(price, size, p, s);
    DerivedUnits(ep, ea, p, s);
    hide Pow10, RoundedUnits, FixedText, EngineTicks, ReadDecimal, Mul, Inv;
    PriceRecoversIff(p);
    SizeRecoversIff(p, s);
    FixedTextInjective(RoundedUnits(Inv(ep), 6), p, 6);
    FixedTextInjective(RoundedUnits(Mul(ea, ep), 6), s, 6);
    EngineTextsKept(price, size, ep, ea, e);
    hide Residual, Equal;
    EqualSymmetric(ea, Ratio(s * p * MICRO, ENGINE));
    EqualTransitive(Mul(size, price), Ratio(s * p * MICRO, ENGINE), ea);
    RoundedByValue(Mul(size, price), ea, 6);
  }

  lemma EqualSymmetric(a: Rational, b: Rational)
    requires Equal(a, b)
    ensures Equal(b, a)
  {
  }

  lemma EngineTextsKept(price: Rational, size: Rational, ep: Rational, ea: Rational, e: Echo)
    requires price.num > 0 && size.num > 0 && ep.num > 0 && ea.num > 0
    requires e.enginePrice == DecimalOf(Inv(price), 18) && ReadDecimal(e.enginePrice) == Some(ep)
    requires Mul(size, price).num >= 0
    requires e.engineAmount == DecimalOf(Mul(size, price), 18) && ReadDecimal(e.engineAmount) == Some(ea)
    ensures DecimalOf(ep, 18) == e.enginePrice && DecimalOf(ea, 18) == e.engineAmount
  {
    hide ReadDecimal, DecimalOf;
    FormatIsIdempotent(Inv(price), 18);
    FormatIsIdempotent(Mul(size, price), 18);
  }

  /** Every price of at most six decimals up to a million, and every size of at most six decimals
      with size * price below 10^12, survives the round trip. */
  lemma RoundTripWithinLimits(uiSide: Side, price: Rational, size: Rational, p: int, s: int)
    requires p > 0 && s > 0 && price.num > 0 && size.num > 0
    requires Equal(price, Ratio(p, MICRO)) && Equal(size, Ratio(s, MICRO))
    requires p <= MILLION_MICRO && s * p < UNITY
    ensures var e := Translated(uiSide, price, size);
            DeriveFromText(e.engineSide, e.enginePrice, e.engineAmount) == Ok(e)
  {
    hide DeriveFromText, Translated;
    LimitsAreRecoverable(p, s);
    RoundTripIff(uiSide, price, size, p, s);
  }

  lemma LimitsAreRecoverable(p: int, s: int)
    requires 0 < p <= MILLION_MICRO && s > 0 && s * p < UNITY
    ensures Recoverable(p, s)
  {
    hide EngineTicks;
    ResidualBound(p, s);
    var e, r := EngineTicks(p), Residual(p);
    EngineTicksLarge(p, e);
    hide Residual;
    SmallResidual(s, p, r);
  }

  lemma SmallResidual(s: int, p: int, r: int)
    requires s > 0 && -p <= 2 * r <= p && s * p < UNITY
    ensures -UNITY <= 2 * (s * r) < UNITY
  {
    MulMono(2 * r, p, s);
    MulMono(-p, 2 * r, s);
  }

  lemma EngineTicksLarge(p: int, e: int)
    requires 0 < p <= MILLION_MICRO && -p <= 2 * (p * e - UNITY)
    ensures e >= MILLION_MICRO
    ensures e == p ==> p * e == UNITY
  {
    MulMono(p, MILLION_MICRO, MILLION_MICRO);
    if e < MILLION_MICRO {
      MulMono(e, MILLION_MICRO - 1, p);
    }
  }

  /** Beyond the limit the size can come back a millionth short: 600 billion USDC at price 3. */
  lemma RoundTripFailsBeyondLimits()
    ensures var e := Translated(Buy, Ratio(3, 1), Ratio(600_000_000_000, 1));
            DeriveFromText(e.engineSide, e.enginePrice, e.engineAmount) != Ok(e)
  {
    hide DeriveFromText, Translated;
    var p, s := 3 * MICRO, 600_000_000_000 * MICRO;
    RoundTripIff(Buy, Ratio(3, 1), Ratio(600_000_000_000, 1), p, s);
    Powers();
    RoundedIff(Ratio(MICRO, p), 18, 333_333_333_333_333_333);
    assert Residual(p) == -MICRO;
  }
}

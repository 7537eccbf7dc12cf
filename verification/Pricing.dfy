/** internal/pricing/pricing.go: prices as whole multiples of an instrument's decimal tick. */
module Pricing {
  import opened Arith
  import opened DecimalText
  import opened Wrappers

  datatype PriceError =
    | BadDecimal(cause: DecimalError)
    | Misaligned
    | NotPositive
    | InvalidTicks
    | NegativeTicks

  datatype Converter = Converter(tickSize: string, quotePrecision: int, tick: Fraction) {

    /** A zero tick would make the division in Parse panic. */
    predicate Usable() { tick.numerator > 0 }

    function FormatTicks(ticks: string): Result<string, PriceError> {
      match ParseInt(TrimSpace(ticks))
      case None => Err(InvalidTicks)
      case Some(value) => if value < 0 then Err(NegativeTicks) else Ok(TickText(value))
    }

    function TickText(value: nat): string {
      var numerator := value * tick.numerator;
      var integer := Quo(numerator, tick.Denominator());
      var remainder := Rem(numerator, tick.Denominator());
      if remainder == 0 then NatText(integer)
      else
        var scale := if tick.scale > quotePrecision then tick.scale else quotePrecision;
        NatText(integer) + FractionSuffix(Quo(remainder * Pow10(scale), tick.Denominator()), scale)
    }

    function Parse(price: string): Result<(string, string), PriceError>
      requires Usable()
    {
      match DecimalToFraction(price)
      case Err(e) => Err(BadDecimal(e))
      case Ok(f) => ParseFraction(f)
    }

    function ParseFraction(f: Fraction): Result<(string, string), PriceError>
      requires Usable()
    {
      var scaledNumerator := f.numerator * tick.Denominator();
      var scaledDenominator := Product(f.Denominator(), tick.numerator);
      if Rem(scaledNumerator, scaledDenominator) != 0 then Err(Misaligned)
      else
        var ticks := Quo(scaledNumerator, scaledDenominator);
        if ticks == 0 then Err(NotPositive)
        else
          var display :- FormatTicks(NatText(ticks));
          Ok((NatText(ticks), display))
    }

    /** The value f is exactly t ticks. */
    predicate IsTicks(f: Fraction, t: nat) {
      f.numerator * tick.Denominator() == t * Product(f.Denominator(), tick.numerator)
    }
  }

  function Product(a: nat, b: nat): (p: nat)
    ensures a > 0 && b > 0 ==> p > 0
  {
    a * b
  }

  function NewConverter(tickSize: string, quotePrecision: int): Result<Converter, PriceError> {
    match DecimalToFraction(tickSize)
    case Err(e) => Err(BadDecimal(e))
    case Ok(tick) => Ok(Converter(tickSize, quotePrecision, tick))
  }

  /** Every plain decimal tick text is read as its own value, and the text and the precision kept. */
  lemma NewConverterReads(plus: bool, a: string, point: bool, b: string, quotePrecision: int)
    requires AllDigits(a) && AllDigits(b) && (point || b == "") && (plus || a != "" || point)
    ensures AllDigits(a + b)
    ensures var text := PlainText(plus, a, point, b);
            NewConverter(text, quotePrecision) == Ok(Converter(text, quotePrecision, Fraction(NatOf(a + b), |b|)))
  {
    hide NatOf, DecimalToFraction, PlainText;
    PlainTextValue(plus, a, point, b);
  }

  /** And no other text makes a converter. */
  lemma NewConverterIff(tickSize: string, quotePrecision: int)
    ensures NewConverter(tickSize, quotePrecision).Ok? <==> IsPlain(TrimSpace(tickSize))
    ensures NewConverter(tickSize, quotePrecision).Ok? ==>
              var c := NewConverter(tickSize, quotePrecision).value;
              c.tickSize == tickSize && c.quotePrecision == quotePrecision && DecimalToFraction(tickSize) == Ok(c.tick)
  {
    hide DecimalToFraction, IsPlain, TrimSpace;
    DecimalIff(tickSize);
  }

  /** An instrument with tick a.b accepts the price x.y as t ticks exactly when t is positive and t
      times a.b is x.y, all read off the digits. */
  lemma InstrumentParses(a: string, b: string, quotePrecision: int, x: string, y: string, t: nat)
    requires AllDigits(a) && AllDigits(b) && AllDigits(x) && AllDigits(y)
    requires AllDigits(a + b) && NatOf(a + b) > 0 && AllDigits(x + y)
    ensures var r := NewConverter(PlainText(false, a, true, b), quotePrecision);
            && r.Ok? && r.value.Usable()
            && (r.value.Parse(PlainText(false, x, true, y)) == Ok((NatText(t), r.value.TickText(t)))
                <==> t >= 1 && NatOf(x + y) * Pow10(|b|) == t * (Pow10(|y|) * NatOf(a + b)))
            && (r.value.Parse(PlainText(false, x, true, y)).Ok?
                <==> exists k :: k >= 1 && NatOf(x + y) * Pow10(|b|) == k * (Pow10(|y|) * NatOf(a + b)))
  {
    hide NatOf, DecimalToFraction, PlainText, Pow10, NatText, Converter.Parse, Converter.TickText;
    NewConverterReads(false, a, true, b, quotePrecision);
    PlainTextValue(false, x, true, y);
    var c := NewConverter(PlainText(false, a, true, b), quotePrecision).value;
    ParseIsExact(c, PlainText(false, x, true, y), t);
    var f := DecimalToFraction(PlainText(false, x, true, y)).value;
    if k: nat :| k >= 1 && c.IsTicks(f, k) { assert NatOf(x + y) * Pow10(|b|) == k * (Pow10(|y|) * NatOf(a + b)); }
    if k: int :| k >= 1 && NatOf(x + y) * Pow10(|b|) == k * (Pow10(|y|) * NatOf(a + b)) { assert c.IsTicks(f, k); }
  }

  /** Tick counts that are not plain non-negative integers are refused by the printer. */
  lemma FormatTicksIff(c: Converter, ticks: string)
    ensures var n := ParseInt(TrimSpace(ticks));
            && (c.FormatTicks(ticks) == Err(InvalidTicks) <==> n.None?)
            && (c.FormatTicks(ticks) == Err(NegativeTicks) <==> n.Some? && n.value < 0)
            && (c.FormatTicks(ticks).Ok? <==> n.Some? && n.value >= 0)
  {
  }

  /** The spot market's tick size. */
  const SPOT_TICK := "0.000000000000000001"

  /** It is read as 10^-18. */
  lemma SpotTick(quotePrecision: int)
    ensures NewConverter(SPOT_TICK, quotePrecision) == Ok(Converter(SPOT_TICK, quotePrecision, Fraction(1, 18)))
  {
    hide DecimalToFraction;
    SpotTickText();
    SpotTickValue();
  }

  lemma SpotTickText()
    ensures SPOT_TICK == PlainText(false, "0", true, Zeros(17) + "1")
  {
  }

  lemma SpotTickValue()
    ensures DecimalToFraction(PlainText(false, "0", true, Zeros(17) + "1")) == Ok(Fraction(1, 18))
  {
    var b := Zeros(17) + "1";
    hide NatOf, DecimalToFraction, PlainText;
    PlainTextValue(false, "0", true, b);
    assert "0" + b == Zeros(18) + "1";
    NatOfZeros(18);
    NatOfConcat(Zeros(18), "1");
    OneDigit();
  }

  lemma OneDigit()
    ensures NatOf("1") == 1
  {
    assert "1"[..0] == "";
  }

  // ---------------------------------------------------------------- the printer is exact

  lemma {:induction false} FractionSuffixWiden(f: nat, scale: nat, k: nat)
    ensures FractionSuffix(f * Pow10(k), scale + k) == FractionSuffix(f, scale)
  {
    hide FractionSuffix;
    if k > 0 {
      FractionSuffixWiden(f, scale, k - 1);
      FractionSuffixScale(f * Pow10(k - 1), scale + (k - 1));
      assert f * Pow10(k) == 10 * (f * Pow10(k - 1));
      assert scale + k == scale + (k - 1) + 1;
    }
  }

  /** Whatever the quote precision, ticks print as the canonical text of t * tick: dividing the
      scaled remainder by the tick denominator never drops a digit. */
  lemma TickTextIsCanonical(c: Converter, t: nat)
    ensures c.TickText(t) == FixedText(t * c.tick.numerator, c.tick.scale)
  {
    hide FractionSuffix, NatText, Pow10, Quo, Rem;
    var den := c.tick.Denominator();
    var remainder := Rem(t * c.tick.numerator, den);
    if remainder == 0 {
      NoFraction(c.tick.scale);
    } else {
      var scale := if c.tick.scale > c.quotePrecision then c.tick.scale else c.quotePrecision;
      var k := scale - c.tick.scale;
      Pow10Sum(k, c.tick.scale);
      assert remainder * Pow10(scale) == (remainder * Pow10(k)) * den + 0;
      QuoRemUnique(remainder * Pow10(scale), den, remainder * Pow10(k), 0);
      FractionSuffixWiden(remainder, c.tick.scale, k);
    }
  }

  lemma NoFraction(scale: nat)
    ensures FractionSuffix(0, scale) == ""
  {
    hide NatText;
    PaddedZero(scale);
  }

  lemma FormatTicksText(c: Converter, t: nat)
    ensures c.FormatTicks(NatText(t)) == Ok(c.TickText(t))
  {
    var s := NatText(t);
    hide TrimSpace, NatText, ParseInt, Converter.TickText;
    assert IsDigit(s[0]) && IsDigit(s[|s| - 1]);
    TrimKeeps(s);
    assert IntText(t) == s;
    IntTextValue(t);
  }

  /** The printed price reads back as exactly t ticks. */
  lemma TickTextValue(c: Converter, t: nat)
    ensures var f := DecimalToFraction(c.TickText(t)); f.Ok? && c.IsTicks(f.value, t)
  {
    hide FixedText, DecimalToFraction, Converter.TickText, Pow10;
    TickTextIsCanonical(c, t);
    FixedTextValue(t * c.tick.numerator, c.tick.scale);
    var f := DecimalToFraction(c.TickText(t)).value;
    Reassociate(t, c.tick.numerator, f.Denominator());
  }

  lemma Reassociate(t: nat, n: nat, d: nat)
    ensures (t * n) * d == t * Product(d, n)
  {
  }

  // ---------------------------------------------------------------- the parser is exact

  /** Parse returns t exactly when the price's value is t ticks and t is positive. */
  lemma ParseFractionIff(c: Converter, f: Fraction, t: nat)
    requires c.Usable()
    ensures c.ParseFraction(f) == Ok((NatText(t), c.TickText(t))) <==> t >= 1 && c.IsTicks(f, t)
    ensures c.ParseFraction(f).Ok?
            ==> c.ParseFraction(f).value.0 == NatText(Quo(f.numerator * c.tick.Denominator(),
              Product(f.Denominator(), c.tick.numerator)))
    ensures c.IsTicks(f, 0) ==> c.ParseFraction(f) == Err(NotPositive)
  {
    hide NatText, Pow10, Quo, Rem, Product, Converter.TickText, Converter.FormatTicks;
    var n, d := f.numerator * c.tick.Denominator(), Product(f.Denominator(), c.tick.numerator);
    QuoRem(n, d);
    var q := Quo(n, d);
    FormatTicksText(c, q);
    if c.IsTicks(f, t) {
      QuoRemUnique(n, d, t, 0);
    }
    if c.IsTicks(f, 0) {
      QuoRemUnique(n, d, 0, 0);
    }
    NatTextValue(q);
    NatTextValue(t);
  }

  /** On well-formed text: acceptance, the ticks returned and the normalised price, both ways. */
  lemma ParseIsExact(c: Converter, price: string, t: nat)
    requires c.Usable() && DecimalToFraction(price).Ok?
    ensures c.Parse(price) == Ok((NatText(t), c.TickText(t)))
            <==> t >= 1 && c.IsTicks(DecimalToFraction(price).value, t)
    ensures c.Parse(price).Ok? <==> exists k :: k >= 1 && c.IsTicks(DecimalToFraction(price).value, k)
    ensures c.Parse(price).Err? ==> c.Parse(price) in {Err(Misaligned), Err(NotPositive)}
    ensures c.Parse(price) == Err(NotPositive) <==> DecimalToFraction(price).value.numerator == 0
  {
    hide NatText, Pow10, Quo, Rem, Product, Converter.TickText, Converter.FormatTicks, DecimalToFraction;
    var f := DecimalToFraction(price).value;
    var n, d := f.numerator * c.tick.Denominator(), Product(f.Denominator(), c.tick.numerator);
    var q := Quo(n, d);
    ParseFractionIff(c, f, t);
    ParseFractionIff(c, f, q);
    QuoRem(n, d);
    FormatTicksText(c, q);
    if k :| k >= 1 && c.IsTicks(f, k) {
      ParseFractionIff(c, f, k);
    }
    if f.numerator == 0 {
      assert n == 0;
      QuoRemUnique(n, d, 0, 0);
    } else {
      MulMono(1, f.numerator, c.tick.Denominator());
    }
  }

  /** A text that is no decimal is reported as such, blank text apart, by Parse and as a tick size. */
  lemma NotADecimal(c: Converter, text: string, quotePrecision: int)
    requires c.Usable() && !IsPlain(TrimSpace(text))
    ensures var cause := if TrimSpace(text) == "" then ValueRequired else InvalidDecimal;
            c.Parse(text) == Err(BadDecimal(cause)) && NewConverter(text, quotePrecision) == Err(BadDecimal(cause))
  {
    hide DecimalToFraction, IsPlain, TrimSpace, Converter.ParseFraction;
    DecimalIff(text);
    var read := DecimalToFraction(text);
    assert read.error.ValueRequired? || read.error.InvalidDecimal?;
  }

  /** Two spellings of one value parse alike, digit by digit and error by error. */
  lemma ParseDependsOnValueOnly(c: Converter, p: string, r: string)
    requires c.Usable() && DecimalToFraction(p).Ok? && DecimalToFraction(r).Ok?
    requires SameValue(DecimalToFraction(p).value, DecimalToFraction(r).value)
    ensures c.Parse(p) == c.Parse(r)
  {
    hide NatText, Pow10, Quo, Rem, Product, Converter.TickText, Converter.FormatTicks, DecimalToFraction;
    var f, g := DecimalToFraction(p).value, DecimalToFraction(r).value;
    forall t: nat ensures c.IsTicks(f, t) <==> c.IsTicks(g, t) {
      if c.IsTicks(f, t) { TicksByValue(c, f, g, t); }
      if c.IsTicks(g, t) { TicksByValue(c, g, f, t); }
    }
    if c.Parse(p).Ok? {
      ParseIsExact(c, p, 0);
      var k :| k >= 1 && c.IsTicks(f, k);
      ParseIsExact(c, p, k);
      ParseIsExact(c, r, k);
    } else {
      ParseIsExact(c, p, 0);
      ParseIsExact(c, r, 0);
      ZeroByValue(f, g);
    }
  }

  lemma ZeroByValue(f: Fraction, g: Fraction)
    requires SameValue(f, g)
    ensures f.numerator == 0 <==> g.numerator == 0
  {
    hide Pow10;
    if f.numerator != 0 { MulMono(1, f.numerator, g.Denominator()); }
    if g.numerator != 0 { MulMono(1, g.numerator, f.Denominator()); }
  }

  lemma TicksByValue(c: Converter, f: Fraction, g: Fraction, t: nat)
    requires SameValue(f, g) && c.IsTicks(f, t)
    ensures c.IsTicks(g, t)
  {
    hide Pow10;
    var td, tn, fd, gd := c.tick.Denominator(), c.tick.numerator, f.Denominator(), g.Denominator();
    calc {
      (g.numerator * td) * fd;
      (g.numerator * fd) * td;
      (f.numerator * gd) * td;
      (f.numerator * td) * gd;
      (t * (fd * tn)) * gd;
      (t * (gd * tn)) * fd;
    }
    MulCancel(g.numerator * td, t * (gd * tn), fd);
  }

  // ---------------------------------------------------------------- inverse and normal form

  /** Parse undoes FormatTicks at every tick size and quote precision. */
  lemma ParseUndoesFormat(c: Converter, t: nat)
    requires c.Usable() && t >= 1
    ensures c.FormatTicks(NatText(t)) == Ok(c.TickText(t))
    ensures c.Parse(c.TickText(t)) == Ok((NatText(t), c.TickText(t)))
  {
    hide NatText, Product, Converter.TickText, Converter.FormatTicks, Converter.Parse, DecimalToFraction;
    FormatTicksText(c, t);
    TickTextValue(c, t);
    ParseIsExact(c, c.TickText(t), t);
  }

  /** Distinct tick counts print distinct texts, none with a trailing zero or a bare point. */
  lemma FormatIsInjectiveAndTrimmed(c: Converter, t: nat, u: nat)
    requires c.Usable()
    ensures c.TickText(t) == c.TickText(u) ==> t == u
    ensures var s := c.TickText(t); s != "" && ('.' in s ==> s[|s| - 1] != '0' && s[|s| - 1] != '.')
  {
    hide NatText, Pow10, Converter.TickText, Converter.FormatTicks, DecimalToFraction, FixedText;
    TickTextIsCanonical(c, t);
    FixedTextTrimmed(t * c.tick.numerator, c.tick.scale);
    TickTextValue(c, t);
    TickTextValue(c, u);
    if c.TickText(t) == c.TickText(u) {
      var f := DecimalToFraction(c.TickText(t)).value;
      MulCancel(t, u, Product(f.Denominator(), c.tick.numerator));
    }
  }

  /** Re-parsing an accepted price's normalised text changes nothing. */
  lemma NormalisedPriceIsFixedPoint(c: Converter, price: string)
    requires c.Usable() && c.Parse(price).Ok?
    ensures c.Parse(c.Parse(price).value.1) == c.Parse(price)
  {
    var f := DecimalToFraction(price).value;
    hide NatText, Product, Converter.TickText, Converter.FormatTicks, DecimalToFraction, Pow10;
    ParseIsExact(c, price, 0);
    var k :| k >= 1 && c.IsTicks(f, k);
    ParseIsExact(c, price, k);
    ParseUndoesFormat(c, k);
  }

  /** A leading plus, leading zeros and trailing zeros leave the parse unchanged. */
  lemma ParseIgnoresDecoration(c: Converter, plus: bool, lead: nat, a: string, b: string, trail: nat)
    requires c.Usable() && AllDigits(a) && AllDigits(b)
    ensures c.Parse(PlainText(plus, Zeros(lead) + a, true, b + Zeros(trail))) == c.Parse(PlainText(false, a, true, b))
  {
    hide Converter.Parse, DecimalToFraction, PlainText;
    DecorationKeepsValue(plus, lead, a, b, trail);
    ParseDependsOnValueOnly(c, PlainText(plus, Zeros(lead) + a, true, b + Zeros(trail)), PlainText(false, a, true, b));
  }

  lemma ParseIgnoresPoint(c: Converter, plus: bool, lead: nat, a: string, trail: nat)
    requires c.Usable() && AllDigits(a) && a != ""
    ensures c.Parse(PlainText(plus, Zeros(lead) + a, true, Zeros(trail))) == c.Parse(a)
  {
    hide Converter.Parse, DecimalToFraction, PlainText;
    PointKeepsValue(plus, lead, a, trail);
    ParseDependsOnValueOnly(c, PlainText(plus, Zeros(lead) + a, true, Zeros(trail)), a);
  }
}

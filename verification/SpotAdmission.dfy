/** A spot order's whole way in and out: from the UI intent through translation, the tick converter
    and the amount step to the stored row (internal/api/orders.go), and back to the UI. */
module SpotAdmission {
  import opened Admission
  import opened Arith
  import opened DecimalText
  import opened Orders
  import opened SpotContract
  import opened SpotEntry
  import opened Wrappers

  /** The columns of the row that the terms of the order decide. */
  datatype Stored = Stored(side: Side, limitPrice: string, ticks: string, desired: string)

  datatype Rejection =
    | EntryRejected(entry: EntryError)
    | SideMissing
    | PriceRejected(price: Pricing.PriceError)
    | AmountUnreadable
    | AmountRejected(amount: AmountError)

  /** The spot market counts amounts in whole cNGN. */
  const SPOT_STEP: Rational := Ratio(1, 1)

  function AdmitTerms(side: Side, price: string, amount: Stated, quotePrecision: int): Result<Stored, Rejection> {
    match SpotConverter(quotePrecision).Parse(price)
    case Err(e) => Err(PriceRejected(e))
    case Ok((ticks, normalized)) =>
      match amount
      case Reads(v) => (
        match NormalizeAmount(v, SPOT_STEP, true)
        case Err(e) => Err(AmountRejected(e))
        case Ok(k) => Ok(Stored(side, normalized, ticks, NatText(k)))
      )
      case _ => Err(AmountUnreadable)
  }

  /** A spot order from its request: text is the limit price as written, price and amount the values
      that big.Rat reads from the two texts. */
  function AdmitOrder(spec: string, intent: Option<Intent>, side: Option<Side>, text: string, price: Stated,
      amount: Stated, quotePrecision: int): Result<Stored, Rejection> {
    match ValidateOrTranslate(spec, intent, side, price, amount)
    case Err(e) => Err(EntryRejected(e))
    case Ok(AsStated) =>
      if side.None? then Err(SideMissing) else AdmitTerms(side.value, text, amount, quotePrecision)
    case Ok(Replaced(engineSide, enginePrice, engineAmount)) =>
      AdmitTerms(engineSide, enginePrice, Read(engineAmount), quotePrecision)
  }

  // ---------------------------------------------------------------- orders in engine terms

  /** The price text denotes t ticks of 10^-18. */
  predicate TextIs(text: string, t: int) {
    match DecimalToFraction(text)
    case Ok(f) => t >= 1 && f.numerator * Pow10(18) == t * Pow10(f.scale)
    case Err(_) => false
  }

  /** The amount is k whole cNGN. */
  predicate AmountIs(amount: Stated, k: int) { k >= 1 && amount.Reads? && amount.value.num == k * amount.value.den }

  /** An order without spec and intent is admitted on its own terms: exactly when it names a side, its
      price is a positive number of ticks and its amount a positive whole number, and its row then
      holds that side, those ticks and that amount, the price in canonical form. */
  lemma StatedAdmittedIff(side: Option<Side>, text: string, price: Stated, amount: Stated, quotePrecision: int)
    ensures var r := AdmitOrder("", None, side, text, price, amount, quotePrecision);
            && (r.Ok? <==> side.Some? && (exists t :: TextIs(text, t)) && exists k :: AmountIs(amount, k))
            && (forall t: nat, k: nat | side.Some? && TextIs(text, t) && AmountIs(amount, k) ::
                  r == Ok(Stored(side.value, FixedText(t, 18), NatText(t), NatText(k))))
            && (r == Err(SideMissing) <==> side.None?)
            && (r.Err? && r.error.PriceRejected? <==> side.Some? && !exists t :: TextIs(text, t))
            && (r == Err(AmountUnreadable) <==> side.Some? && (exists t :: TextIs(text, t)) && !amount.Reads?)
  {
    var r := AdmitOrder("", None, side, text, price, amount, quotePrecision);
    EntryKinds("", None, side, price, amount);
    hide ValidateOrTranslate, AdmitTerms, TextIs, AmountIs, FixedText, NatText;
    if side.Some? {
      assert r == AdmitTerms(side.value, text, amount, quotePrecision);
      OwnTerms(side.value, text, amount, quotePrecision);
    }
  }

  lemma OwnTerms(side: Side, text: string, amount: Stated, quotePrecision: int)
    ensures var r := AdmitTerms(side, text, amount, quotePrecision);
            && (r.Ok? <==> (exists t :: TextIs(text, t)) && exists k :: AmountIs(amount, k))
            && r != Err(SideMissing)
            && (r.Err? && r.error.PriceRejected? <==> !exists t :: TextIs(text, t))
            && (r == Err(AmountUnreadable) <==> (exists t :: TextIs(text, t)) && !amount.Reads?)
            && (forall t: nat, k: nat | TextIs(text, t) && AmountIs(amount, k) ::
                  r == Ok(Stored(side, FixedText(t, 18), NatText(t), NatText(k))))
  {
    var parsed := SpotConverter(quotePrecision).Parse(text);
    var r := AdmitTerms(side, text, amount, quotePrecision);
    TicksParsed(text, quotePrecision, 0);
    AmountCounted(amount, 0);
    hide TextIs, AmountIs, FixedText, NatText, NormalizeAmount, SpotConverter, Pricing.Converter.Parse;
    forall t: nat, k: nat | TextIs(text, t) && AmountIs(amount, k)
      ensures r == Ok(Stored(side, FixedText(t, 18), NatText(t), NatText(k)))
    {
      TicksParsed(text, quotePrecision, t);
      AmountCounted(amount, k);
    }
  }

  lemma TicksParsed(text: string, quotePrecision: int, t: nat)
    ensures SpotConverter(quotePrecision).Parse(text).Ok? <==> exists u :: TextIs(text, u)
    ensures TextIs(text, t) ==> SpotConverter(quotePrecision).Parse(text) == Ok((NatText(t), FixedText(t, 18)))
  {
    var c := SpotConverter(quotePrecision);
    hide SpotConverter, NatText, FixedText, DecimalToFraction, Pow10, Pricing.Converter.TickText,
        Pricing.Converter.FormatTicks;
    if DecimalToFraction(text).Ok? {
      hide Pricing.Converter.Parse;
      Pricing.ParseIsExact(c, text, t);
      Pricing.TickTextIsCanonical(c, t);
      var f := DecimalToFraction(text).value;
      assert forall u: nat :: c.IsTicks(f, u) <==> f.numerator * Pow10(18) == u * Pow10(f.scale);
      if u :| TextIs(text, u) { assert c.IsTicks(f, u); }
      if u: nat :| u >= 1 && c.IsTicks(f, u) { assert TextIs(text, u); }
    }
  }

  lemma AmountCounted(amount: Stated, k: nat)
    ensures (amount.Reads? && NormalizeAmount(amount.value, SPOT_STEP, true).Ok?) <==> exists j :: AmountIs(amount, j)
    ensures AmountIs(amount, k) ==> NormalizeAmount(amount.value, SPOT_STEP, true) == Ok(k)
  {
    hide NormalizeAmount;
    if amount.Reads? {
      var n := NormalizeAmount(amount.value, SPOT_STEP, true);
      NormalizeAmountIff(amount.value, SPOT_STEP, true);
      forall j: nat ensures Steps(amount.value, SPOT_STEP, j) && j > 0 <==> AmountIs(amount, j) {}
      if n.Ok? { assert AmountIs(amount, n.value); }
    }
  }

  // ---------------------------------------------------------------- which intents get in

  /** The reciprocal is at least half a tick. */
  predicate PriceShows(price: Rational) { 2 * (price.den * Pow10(18)) >= price.num }

  /** The cNGN amount rounds, at 18 decimals, to k whole units. */
  predicate Whole(amount: Rational, k: nat)
    requires amount.num >= 0
  {
    k >= 1 && RoundedUnits(amount, 18) == k * Pow10(18)
  }

  /** A whole number prints the same at any scale. */
  lemma WholeText(k: nat, scale: nat)
    ensures FixedText(k * Pow10(scale), scale) == NatText(k)
  {
    assert Pow10(0) == 1;
    hide Pow10, NatText;
    FixedTextByValue(k * Pow10(scale), scale, k, 0);
    PlainWhole(k);
  }

  lemma PlainWhole(k: nat)
    ensures FixedText(k, 0) == NatText(k)
  {
    Pricing.NoFraction(0);
    assert Pow10(0) == 1;
    hide NatText, FractionSuffix, Pow10;
    QuoRemUnique(k, 1, k, 0);
    assert NatText(k) + "" == NatText(k);
  }

  lemma StepsOfFixed(q: nat, scale: nat, k: nat)
    ensures ReadDecimal(FixedText(q, scale)).Some?
    ensures Steps(ReadDecimal(FixedText(q, scale)).value, SPOT_STEP, k) <==> q == k * Pow10(scale)
  {
    hide FixedText, ReadDecimal, Pow10;
    ReadFixed(q, scale);
    var v := ReadDecimal(FixedText(q, scale)).value;
    FixedSteps(v.num, v.den, q, Pow10(scale), k);
  }

  lemma FixedSteps(n: int, d: nat, q: nat, p: nat, k: nat)
    requires d > 0 && p > 0 && n * p == q * d
    ensures n == k * d <==> q == k * p
  {
    if n == k * d {
      assert q * d == (k * p) * d;
      MulCancel(q, k * p, d);
    }
    if q == k * p {
      assert n * p == (k * d) * p;
      MulCancel(n, k * d, p);
    }
  }

  /** The amount step accepts a printed amount exactly when it is a positive whole number, and stores
      the same text. */
  lemma AmountAdmitted(amount: Rational, k: nat)
    requires amount.num >= 0
    ensures ReadDecimal(DecimalOf(amount, 18)).Some?
    ensures NormalizeAmount(ReadDecimal(DecimalOf(amount, 18)).value, SPOT_STEP, true) == Ok(k) <==> Whole(amount, k)
    ensures Whole(amount, k) ==> NatText(k) == DecimalOf(amount, 18)
  {
    hide Pow10, RoundedUnits, FixedText, ReadDecimal, NatText, NormalizeAmount, Steps;
    var q := RoundedUnits(amount, 18);
    StepsOfFixed(q, 18, k);
    NormalizeAmountIff(ReadDecimal(FixedText(q, 18)).value, SPOT_STEP, true);
    WholeText(k, 18);
  }

  /** Exactly which positive intents are admitted, whatever consistent engine terms stand beside
      them: those whose reciprocal price is at least half a tick and whose cNGN amount rounds to a
      positive whole number. The row then stores the translation's own texts. */
  lemma AdmittedIff(intent: Intent, side: Option<Side>, text: string, price: Stated, amount: Stated,
      quotePrecision: int)
    requires intent.price.num > 0 && intent.size.num > 0
    requires ValidateOrTranslate(ENTRY_SPEC, Some(intent), side, price, amount).Ok?
    ensures Mul(intent.size, intent.price).num > 0
    ensures var (r, e) := (AdmitOrder(ENTRY_SPEC, Some(intent), side, text, price, amount, quotePrecision),
            Translated(intent.side, intent.price, intent.size));
            && (r.Ok? <==> PriceShows(intent.price) && exists k :: Whole(Mul(intent.size, intent.price), k))
            && (r.Ok?
              ==> r.value == Stored(e.engineSide, e.enginePrice, NatText(RoundedUnits(Inv(intent.price), 18)),
                e.engineAmount))
  {
    var e := Translated(intent.side, intent.price, intent.size);
    MulMono(1, intent.size.num, intent.price.num);
    EntryIsStable(intent, side, price, amount);
    hide ValidateOrTranslate, Pow10, RoundedUnits, ReadDecimal, NatText, NormalizeAmount, Mul, Whole, SignedText, Read,
        DecimalOf;
    hide Pricing.Converter.Parse, SpotConverter;
    TermsAdmitted(e.engineSide, intent.price, Mul(intent.size, intent.price), quotePrecision);
  }

  lemma TermsAdmitted(side: Side, price: Rational, amount: Rational, quotePrecision: int)
    requires price.num > 0 && amount.num > 0
    ensures var r := AdmitTerms(side, DecimalOf(Inv(price), 18), Read(DecimalOf(amount, 18)), quotePrecision);
            && (r.Ok? <==> PriceShows(price) && exists k :: Whole(amount, k))
            && (r.Ok?
              ==> r.value == Stored(side, DecimalOf(Inv(price), 18), NatText(RoundedUnits(Inv(price), 18)),
                DecimalOf(amount, 18)))
  {
    hide Pow10, RoundedUnits, ReadDecimal, NatText, NormalizeAmount, Whole, DecimalOf, Pricing.Converter.Parse,
        SpotConverter;
    EnginePriceParses(Inv(price), quotePrecision);
    AmountAdmitted(amount, 0);
    var n := NormalizeAmount(ReadDecimal(DecimalOf(amount, 18)).value, SPOT_STEP, true);
    if n.Ok? { AmountAdmitted(amount, n.value); }
    if k :| Whole(amount, k) { AmountAdmitted(amount, k); }
  }

  // ---------------------------------------------------------------- and back

  /** The stored row shows the UI exactly the order it entered, text for text, exactly when both
      roundings are recoverable. */
  lemma StoredDerivesBackIff(intent: Intent, side: Option<Side>, text: string, price: Stated, amount: Stated,
      quotePrecision: int,
      p: int, s: int)
    requires p > 0 && s > 0 && intent.price.num > 0 && intent.size.num > 0
    requires Equal(intent.price, Ratio(p, MICRO)) && Equal(intent.size, Ratio(s, MICRO))
    requires AdmitOrder(ENTRY_SPEC, Some(intent), side, text, price, amount, quotePrecision).Ok?
    ensures var row := AdmitOrder(ENTRY_SPEC, Some(intent), side, text, price, amount, quotePrecision).value;
            DeriveFromText(row.side, row.limitPrice,
              row.desired) == Ok(Translated(intent.side, intent.price, intent.size))
            <==> Recoverable(p, s)
  {
    assert ValidateOrTranslate(ENTRY_SPEC, Some(intent), side, price, amount).Ok?;
    hide ValidateOrTranslate, DeriveFromText, Translated, AdmitTerms, Recoverable, AdmitOrder;
    AdmittedIff(intent, side, text, price, amount, quotePrecision);
    RoundTripIff(intent.side, intent.price, intent.size, p, s);
  }

  /** Within the stated limits an intent of at most six decimals is admitted exactly when size times
      price is a whole number of cNGN, and then its row always shows the UI the order it entered. */
  lemma SpotEndToEnd(intent: Intent, side: Option<Side>, text: string, price: Stated, amount: Stated,
      quotePrecision: int, p: int,
      s: int)
    requires p > 0 && s > 0 && intent.price.num > 0 && intent.size.num > 0
    requires Equal(intent.price, Ratio(p, MICRO)) && Equal(intent.size, Ratio(s, MICRO))
    requires p <= MILLION_MICRO && s * p < UNITY
    requires ValidateOrTranslate(ENTRY_SPEC, Some(intent), side, price, amount).Ok?
    ensures var r := AdmitOrder(ENTRY_SPEC, Some(intent), side, text, price, amount, quotePrecision);
            && (r.Ok? <==> exists k :: s * p == k * MILLION_MICRO)
            && (r.Ok? ==> DeriveFromText(r.value.side, r.value.limitPrice, r.value.desired)
                          == Ok(Translated(intent.side, intent.price, intent.size)))
  {
    hide ValidateOrTranslate, DeriveFromText, Translated, AdmitOrder, Recoverable, Whole, PriceShows;
    AdmittedIff(intent, side, text, price, amount, quotePrecision);
    SmallPriceShows(intent.price, p);
    WholeProduct(intent.price, intent.size, p, s);
    if AdmitOrder(ENTRY_SPEC, Some(intent), side, text, price, amount, quotePrecision).Ok? {
      StoredDerivesBackIff(intent, side, text, price, amount, quotePrecision, p, s);
      LimitsAreRecoverable(p, s);
    }
  }

  lemma SmallPriceShows(price: Rational, p: int)
    requires 0 < p <= MILLION_MICRO && price.num > 0 && Equal(price, Ratio(p, MICRO))
    ensures PriceShows(price)
  {
    Powers();
    hide Pow10;
    MulMono(p, MILLION_MICRO, price.den);
  }

  lemma WholeProduct(price: Rational, size: Rational, p: int, s: int)
    requires p > 0 && s > 0 && price.num > 0 && size.num > 0
    requires Equal(price, Ratio(p, MICRO)) && Equal(size, Ratio(s, MICRO))
    ensures Mul(size, price).num > 0
    ensures (exists k :: Whole(Mul(size, price), k)) <==> exists k :: s * p == k * MILLION_MICRO
  {
    AmountValue(price, size, p, s);
    var (v, q) := (Mul(size, price), s * p * MICRO);
    Powers();
    hide Pow10, RoundedUnits, Mul, Equal;
    RoundedFixed(q, 18);
    RoundedByValue(v, Ratio(q, Pow10(18)), 18);
    assert RoundedUnits(v, 18) == q;
    if k: nat :| Whole(v, k) {
      MulCancel(s * p, k * MILLION_MICRO, MICRO);
    }
    if k: int :| s * p == k * MILLION_MICRO {
      if k <= 0 { MulMono(k, 0, MILLION_MICRO); }
      assert Whole(v, k);
    }
  }
}

/** internal/api/spot_contract.go: order entry in UI terms, and the tolerance within which engine
    terms stated beside them must agree. */
module SpotEntry {
  import opened Arith
  import opened DecimalText
  import opened Orders
  import opened SpotContract
  import opened Wrappers

  /** A decimal text as the service reads it. */
  datatype Stated = Blank | Unreadable | Reads(value: Rational)

  /** The two values differ by at most 10^-18. */
  predicate Close(a: Rational, b: Rational) {
    Abs(a.num * b.den - b.num * a.den) * Pow10(18) <= Pricing.Product(a.den, b.den)
  }

  predicate DecimalStringsMatch(left: Stated, right: Stated) {
    left.Reads? && right.Reads? && Close(left.value, right.value)
  }

  function Read(text: string): Stated {
    match ReadDecimal(text)
    case Some(v) => Reads(v)
    case None => if TrimSpace(text) == "" then Blank else Unreadable
  }

  const ENTRY_SPEC := "usdc_cngn_spot_v1"

  datatype Intent = Intent(side: Side, price: Rational, size: Rational)

  datatype EntryError = WrongSpec | IntentMissing | NotPositiveIntent | SideDiffers | PriceDiffers | AmountDiffers

  datatype Entry = AsStated | Replaced(side: Side, price: string, amount: string)

  function ValidateOrTranslate(spec: string, intent: Option<Intent>, side: Option<Side>, price: Stated,
      amount: Stated): Result<Entry, EntryError> {
    if spec == "" && intent.None? then Ok(AsStated)
    else if spec != ENTRY_SPEC then Err(WrongSpec)
    else if intent.None? then Err(IntentMissing)
    else if intent.value.price.num <= 0 || intent.value.size.num <= 0 then Err(NotPositiveIntent)
    else
      var e := Translated(intent.value.side, intent.value.price, intent.value.size);
      if side.Some? && side.value != e.engineSide then Err(SideDiffers)
      else if price != Blank && !DecimalStringsMatch(price, Read(e.enginePrice)) then Err(PriceDiffers)
      else if amount != Blank && !DecimalStringsMatch(amount, Read(e.engineAmount)) then Err(AmountDiffers)
      else Ok(Replaced(e.engineSide, e.enginePrice, e.engineAmount))
  }

  // ---------------------------------------------------------------- what the tolerance accepts

  lemma CloseByValue(x: Rational, a: Rational, b: Rational)
    requires Equal(a, b) && Close(x, a)
    ensures Close(x, b)
  {
    hide Pow10;
    var (d, e) := (x.num * a.den - a.num * x.den, x.num * b.den - b.num * x.den);
    assert d * b.den == e * a.den;
    ScaleTolerance(d, e, a.den, b.den, x.den, Pow10(18));
  }

  lemma ScaleTolerance(d: int, e: int, a: nat, b: nat, x: nat, p: nat)
    requires a > 0 && b > 0 && d * b == e * a && Abs(d) * p <= x * a
    ensures Abs(e) * p <= x * b
  {
    assert Abs(d) * b == Abs(d * b) && Abs(e) * a == Abs(e * a) by { AbsTimes(d, b); AbsTimes(e, a); }
    MulMono(Abs(d) * p, x * a, b);
    assert (Abs(e) * p) * a == (Abs(d) * b) * p;
    if Abs(e) * p > x * b { MulMono(x * b + 1, Abs(e) * p, a); }
  }

  lemma AbsTimes(d: int, b: nat)
    ensures Abs(d) * b == Abs(d * b)
  {
    if d >= 0 { MulMono(0, d, b); } else { MulMono(d, 0, b); }
  }

  /** x is at most one unit of 10^-18 away from q units. */
  predicate WithinUnit(x: Rational, q: int) { Abs(x.num * Pow10(18) - q * x.den) <= x.den }

  /** A stated value agrees with a printed one exactly when it is within one unit of 10^-18 of the
      rounded number. */
  lemma MatchesPrintedIff(x: Rational, v: Rational)
    requires v.num >= 0
    ensures DecimalStringsMatch(Reads(x), Read(DecimalOf(v, 18))) <==> WithinUnit(x, RoundedUnits(v, 18))
  {
    var q := RoundedUnits(v, 18);
    hide Pow10, RoundedUnits, FixedText, ReadDecimal, Equal, Close, WithinUnit;
    ReadFixed(q, 18);
    var r := ReadDecimal(FixedText(q, 18)).value;
    EqualSymmetric(r, Ratio(q, Pow10(18)));
    if Close(x, r) { CloseByValue(x, r, Ratio(q, Pow10(18))); }
    if Close(x, Ratio(q, Pow10(18))) { CloseByValue(x, Ratio(q, Pow10(18)), r); }
    CloseToUnits(x, q);
  }

  lemma CloseToUnits(x: Rational, q: nat)
    ensures Close(x, Ratio(q, Pow10(18))) <==> WithinUnit(x, q)
  {
    hide Pow10;
    CancelTolerance(Abs(x.num * Pow10(18) - q * x.den), x.den, Pow10(18));
  }

  lemma CancelTolerance(d: int, x: nat, p: nat)
    requires p > 0
    ensures d * p <= x * p <==> d <= x
  {
    if d <= x { MulMono(d, x, p); } else { MulMono(x + 1, d, p); }
  }

  /** x and v, in units of 10^-18, are at most one and a half units apart. */
  predicate Near(x: Rational, v: Rational) {
    2 * Abs((x.num * Pow10(18)) * v.den - (v.num * Pow10(18)) * x.den) <= 3 * (x.den * v.den)
  }

  /** Stating the exact value is always accepted, and whatever is accepted is near it. */
  lemma ToleranceBounds(x: Rational, v: Rational)
    requires v.num >= 0
    ensures Equal(x, v) ==> DecimalStringsMatch(Reads(x), Read(DecimalOf(v, 18)))
    ensures DecimalStringsMatch(Reads(x), Read(DecimalOf(v, 18))) ==> Near(x, v)
  {
    hide Pow10, RoundedUnits, DecimalOf, Read, DecimalStringsMatch, WithinUnit, Near, Equal;
    MatchesPrintedIff(x, v);
    if Equal(x, v) { ExactWithin(x, v); }
    if WithinUnit(x, RoundedUnits(v, 18)) { WithinNear(x, v); }
  }

  lemma ExactWithin(x: Rational, v: Rational)
    requires v.num >= 0 && Equal(x, v)
    ensures WithinUnit(x, RoundedUnits(v, 18))
  {
    var (q, p) := (RoundedUnits(v, 18), Pow10(18));
    hide Pow10, RoundedUnits;
    RoundedIsNearest(v, 18, 0);
    SameScaled(x.num, x.den, v.num, v.den, p);
    ExactIsClose(x.num * p, x.den, v.num * p, v.den, q);
  }

  lemma WithinNear(x: Rational, v: Rational)
    requires v.num >= 0 && WithinUnit(x, RoundedUnits(v, 18))
    ensures Near(x, v)
  {
    var (q, p) := (RoundedUnits(v, 18), Pow10(18));
    hide Pow10, RoundedUnits;
    RoundedIsNearest(v, 18, 0);
    CloseIsNear(x.num * p, x.den, v.num * p, v.den, q);
  }

  lemma SameScaled(xn: int, xd: nat, vn: int, vd: nat, p: nat)
    requires xn * vd == vn * xd
    ensures (xn * p) * vd == (vn * p) * xd
  {
    calc {
      (xn * p) * vd;
      (xn * vd) * p;
      (vn * p) * xd;
    }
  }

  lemma CrossDifference(x: int, xd: nat, v: int, vd: nat, q: int)
    ensures (x - q * xd) * vd + (q * vd - v) * xd == x * vd - v * xd
  {
    assert (q * xd) * vd == (q * vd) * xd;
  }

  lemma ExactIsClose(x: int, xd: nat, v: int, vd: nat, q: int)
    requires xd > 0 && vd > 0 && x * vd == v * xd && 2 * Abs(q * vd - v) <= vd
    ensures Abs(x - q * xd) <= xd
  {
    CrossDifference(x, xd, v, vd, q);
    BalancedBound(x - q * xd, q * vd - v, xd, vd);
  }

  lemma BalancedBound(a: int, b: int, xd: nat, vd: nat)
    requires xd > 0 && vd > 0 && a * vd + b * xd == 0 && 2 * Abs(b) <= vd
    ensures Abs(a) <= xd
  {
    AbsTimes(a, vd);
    AbsTimes(b, xd);
    MulMono(2 * Abs(b), vd, xd);
    if Abs(a) > xd { MulMono(xd + 1, Abs(a), vd); }
  }

  lemma CloseIsNear(x: int, xd: nat, v: int, vd: nat, q: int)
    requires Abs(x - q * xd) <= xd && 2 * Abs(q * vd - v) <= vd
    ensures 2 * Abs(x * vd - v * xd) <= 3 * (xd * vd)
  {
    CrossDifference(x, xd, v, vd, q);
    SummedBound(x - q * xd, q * vd - v, xd, vd);
  }

  lemma SummedBound(a: int, b: int, xd: nat, vd: nat)
    requires Abs(a) <= xd && 2 * Abs(b) <= vd
    ensures 2 * Abs(a * vd + b * xd) <= 3 * (xd * vd)
  {
    AbsTimes(a, vd);
    AbsTimes(b, xd);
    MulMono(Abs(a), xd, vd);
    MulMono(2 * Abs(b), vd, xd);
    Triangle(a * vd, b * xd, xd * vd);
  }

  lemma Triangle(u: int, w: int, m: int)
    ensures Abs(u) <= m && 2 * Abs(w) <= m ==> 2 * Abs(u + w) <= 3 * m
  {
  }

  predicate Agrees(stated: Stated, v: Rational)
    requires v.num >= 0
  {
    stated.Blank? || (stated.Reads? && WithinUnit(stated.value, RoundedUnits(v, 18)))
  }

  /** Engine terms stated beside a positive intent are accepted exactly when the side is the other
      one, and price and amount, where given, are within one unit of the rounded reciprocal price and
      of the rounded size times price. */
  lemma EntryIff(intent: Intent, side: Option<Side>, price: Stated, amount: Stated)
    requires intent.price.num > 0 && intent.size.num > 0
    ensures Mul(intent.size, intent.price).num > 0
    ensures ValidateOrTranslate("usdc_cngn_spot_v1", Some(intent), side, price, amount).Ok?
            <==> && (side == Some(Buy) ==> intent.side == Sell) && (side == Some(Sell) ==> intent.side == Buy)
                 && Agrees(price, Inv(intent.price)) && Agrees(amount, Mul(intent.size, intent.price))
    ensures var r := ValidateOrTranslate("usdc_cngn_spot_v1", Some(intent), side, price, amount);
            && (r == Err(SideDiffers) <==> side == Some(intent.side))
            && (r == Err(PriceDiffers) <==> side != Some(intent.side) && !Agrees(price, Inv(intent.price)))
            && (r == Err(AmountDiffers)
                <==> && side != Some(intent.side) && Agrees(price, Inv(intent.price))
                     && !Agrees(amount, Mul(intent.size, intent.price)))
  {
    EntryInTurn(intent, side, price, amount);
    hide ValidateOrTranslate, Agrees, Mul, Inv;
  }

  lemma EntryInTurn(intent: Intent, side: Option<Side>, price: Stated, amount: Stated)
    requires intent.price.num > 0 && intent.size.num > 0
    ensures Mul(intent.size, intent.price).num > 0
    ensures var r := ValidateOrTranslate(ENTRY_SPEC, Some(intent), side, price, amount);
            if side == Some(intent.side) then r == Err(SideDiffers)
            else if !Agrees(price, Inv(intent.price)) then r == Err(PriceDiffers)
            else if !Agrees(amount, Mul(intent.size, intent.price)) then r == Err(AmountDiffers)
            else r.Ok?
  {
    hide ValidateOrTranslate, DecimalOf, Read, DecimalStringsMatch, Agrees, Translated, Mul, Inv;
    TranslatedTerms(intent.side, intent.price, intent.size);
    EntryByText(intent, side, price, amount);
    AgreesIff(price, Inv(intent.price));
    AgreesIff(amount, Mul(intent.size, intent.price));
  }

  lemma EntryByText(intent: Intent, side: Option<Side>, price: Stated, amount: Stated)
    requires intent.price.num > 0 && intent.size.num > 0
    ensures var r := ValidateOrTranslate(ENTRY_SPEC, Some(intent), side, price, amount);
            var e := Translated(intent.side, intent.price, intent.size);
            if side.Some? && side.value != e.engineSide then r == Err(SideDiffers)
            else if price != Blank && !DecimalStringsMatch(price, Read(e.enginePrice)) then r == Err(PriceDiffers)
            else if amount != Blank && !DecimalStringsMatch(amount, Read(e.engineAmount)) then r == Err(AmountDiffers)
            else r.Ok?
  {
    hide Translated, Read, DecimalStringsMatch;
  }

  lemma TranslatedTerms(uiSide: Side, price: Rational, size: Rational)
    requires price.num > 0 && size.num > 0
    ensures Inv(price).num > 0 && Mul(size, price).num > 0
    ensures var e := Translated(uiSide, price, size);
            && e.engineSide == uiSide.Opposite()
            && e.enginePrice == DecimalOf(Inv(price), 18) && e.engineAmount == DecimalOf(Mul(size, price), 18)
  {
    MulMono(1, size.num, price.num);
    hide DecimalOf, SignedText;
  }

  lemma AgreesIff(stated: Stated, v: Rational)
    requires v.num >= 0
    ensures stated == Blank || DecimalStringsMatch(stated, Read(DecimalOf(v, 18))) <==> Agrees(stated, v)
  {
    hide DecimalOf, Read, RoundedUnits, WithinUnit, Close;
    if stated.Reads? { MatchesPrintedIff(stated.value, v); }
  }

  /** What the entry spec and the intent alone decide: without either an order is taken as stated; an
      intent needs the spec's exact name; the name alone, or any other, is refused. */
  lemma EntryKinds(spec: string, intent: Option<Intent>, side: Option<Side>, price: Stated, amount: Stated)
    ensures var r := ValidateOrTranslate(spec, intent, side, price, amount);
            && (r == Ok(AsStated) <==> spec == "" && intent.None?)
            && (r == Err(WrongSpec) <==> spec != "usdc_cngn_spot_v1" && !(spec == "" && intent.None?))
            && (r == Err(IntentMissing) <==> spec == "usdc_cngn_spot_v1" && intent.None?)
            && (r == Err(NotPositiveIntent) <==>
                 && spec == "usdc_cngn_spot_v1" && intent.Some?
                 && (intent.value.price.num <= 0 || intent.value.size.num <= 0))
            && (r.Ok? && r.value.Replaced? ==> spec == "usdc_cngn_spot_v1" && intent.Some?)
  {
    hide Translated, Read, DecimalStringsMatch;
    assert ENTRY_SPEC == "usdc_cngn_spot_v1" != "";
    if intent.Some? && intent.value.price.num > 0 { MulMono(1, intent.value.price.num, intent.value.price.num); }
  }

  /** Whatever a client states beside a UI intent, the engine terms returned are the translation's,
      and stating those terms themselves is accepted and returns them again. */
  lemma EntryIsStable(intent: Intent, side: Option<Side>, price: Stated, amount: Stated)
    requires ValidateOrTranslate(ENTRY_SPEC, Some(intent), side, price, amount).Ok?
    ensures intent.price.num > 0 && intent.size.num > 0
    ensures var e := Translated(intent.side, intent.price, intent.size);
            var r := Ok(Replaced(e.engineSide, e.enginePrice, e.engineAmount));
            && ValidateOrTranslate(ENTRY_SPEC, Some(intent), side, price, amount) == r
            && ValidateOrTranslate(ENTRY_SPEC, Some(intent), Some(e.engineSide), Read(e.enginePrice),
              Read(e.engineAmount)) == r
  {
    hide Pow10, DecimalOf, ReadDecimal;
    MulMono(1, intent.size.num, intent.price.num);
    PrintedMatchesItself(Inv(intent.price));
    PrintedMatchesItself(Mul(intent.size, intent.price));
  }

  lemma PrintedMatchesItself(v: Rational)
    requires v.num >= 0
    ensures DecimalStringsMatch(Read(DecimalOf(v, 18)), Read(DecimalOf(v, 18)))
  {
    hide Pow10, RoundedUnits, FixedText, ReadDecimal;
    ReadFixed(RoundedUnits(v, 18), 18);
  }
}

/** internal/api/orders.go: the checks that tie a new order's stored integers to its signed action,
    and what they promise the matcher. */
module Admission {
  import opened Arith
  import opened DecimalText
  import opened MatchRules
  import opened Orders
  import opened TradeData
  import opened Wrappers
  import Spot = SpotContract

  datatype AdmissionError =
    | ActionRejected(cause: ActionError)
    | WrongAsset
    | WrongSubId
    | WrongSide
    | NotPositiveField
    | PriceMisaligned
    | AmountMisaligned

  datatype Path = Divisible | Compatible

  /** 1/step when it is a whole number. */
  function ReciprocalScale(step: Spot.Rational): Option<nat> {
    if step.num <= 0 then None
    else if Rem(step.den, step.num) != 0 then None
    else Some(Quo(step.den, step.num))
  }

  /** On success, the branch that admitted the order. */
  function ValidateActionDataInvariants(o: Order, step: Spot.Rational): Result<Path, AdmissionError> {
    match ParseActionTradeData(o.actionData)
    case Err(e) => Err(ActionRejected(e))
    case Ok(a) =>
      if a.asset != Lower(o.market.asset) then Err(WrongAsset)
      else if NatText(a.subId) != TrimSpace(o.market.subId) then Err(WrongSubId)
      else if a.isBid != o.side.Buy? then Err(WrongSide)
      else if o.ticks <= 0 || o.desired <= 0 then Err(NotPositiveField)
      else ValidateScales(o, a, step)
  }

  function ValidateScales(o: Order, a: TradeAction, step: Spot.Rational): Result<Path, AdmissionError>
    requires o.ticks > 0 && o.desired > 0 && a.limitPrice > 0 && a.desiredAmount > 0
  {
    if Rem(a.limitPrice, o.ticks) != 0 || Quo(a.limitPrice, o.ticks) <= 0 then Err(PriceMisaligned)
    else if Rem(a.desiredAmount, o.desired) == 0 && Quo(a.desiredAmount, o.desired) > 0 then Ok(Divisible)
    else
      match ReciprocalScale(step)
      case Some(k) => if a.desiredAmount * k == o.desired then Ok(Compatible) else Err(AmountMisaligned)
      case None => Err(AmountMisaligned)
  }

  lemma ReciprocalScaleIff(step: Spot.Rational, k: nat)
    ensures ReciprocalScale(step) == Some(k) <==> step.num > 0 && k * step.num == step.den
  {
    hide Quo, Rem;
    if step.num > 0 {
      QuoRem(step.den, step.num);
      if k * step.num == step.den { QuoRemUnique(step.den, step.num, k, 0); }
    }
  }

  /** k times base is signed, with k at least one. */
  predicate Multiple(signed: int, base: int, k: int) { k >= 1 && signed == k * base }

  lemma AlignedIff(signed: int, base: int)
    requires signed > 0 && base > 0
    ensures Rem(signed, base) == 0 && Quo(signed, base) > 0 <==> exists k :: Multiple(signed, base, k)
  {
    hide Quo, Rem;
    QuoRem(signed, base);
    if Rem(signed, base) == 0 && Quo(signed, base) > 0 {
      assert Multiple(signed, base, Quo(signed, base));
    }
    if k :| Multiple(signed, base, k) {
      QuoRemUnique(signed, base, k, 0);
    }
  }

  /** The divisible branch admits exactly the orders whose signed price and amount are whole
      multiples of the stored ones; the compatibility branch exactly those whose price is, whose
      amount is not, and whose signed amount counts the steps of size one over the stored scale. */
  lemma ScalesIff(o: Order, a: TradeAction, step: Spot.Rational)
    requires o.ticks > 0 && o.desired > 0 && a.limitPrice > 0 && a.desiredAmount > 0
    ensures var priced := exists k :: Multiple(a.limitPrice, o.ticks, k);
            var sized := exists k :: Multiple(a.desiredAmount, o.desired, k);
            && (ValidateScales(o, a, step) == Err(PriceMisaligned) <==> !priced)
            && (ValidateScales(o, a, step) == Ok(Divisible) <==> priced && sized)
            && (ValidateScales(o, a, step) == Ok(Compatible)
                <==> && priced && !sized && step.num > 0 && Rem(step.den, step.num) == 0
                     && a.desiredAmount * step.den == o.desired * step.num)
  {
    hide Quo, Rem, ReciprocalScale;
    AlignedIff(a.limitPrice, o.ticks);
    AlignedIff(a.desiredAmount, o.desired);
    StepsIff(o.desired, a.desiredAmount, step);
    hide Multiple;
  }

  lemma StepsIff(desired: int, signed: int, step: Spot.Rational)
    ensures ReciprocalScale(step).Some? <==> step.num > 0 && Rem(step.den, step.num) == 0
    ensures ReciprocalScale(step).Some?
            ==> (signed * ReciprocalScale(step).value == desired <==> signed * step.den == desired * step.num)
  {
    if ReciprocalScale(step).Some? {
      var k := ReciprocalScale(step).value;
      ReciprocalScaleIff(step, k);
      hide ReciprocalScale;
      assert signed * step.den == (signed * k) * step.num;
      if signed * step.den == desired * step.num { MulCancel(signed * k, desired, step.num); }
    }
  }

  datatype AmountError = Unaligned | ZeroAmount | NegativeAmount

  /** The amounts of a request in whole steps. */
  function NormalizeAmount(value: Spot.Rational, step: Spot.Rational, requirePositive: bool): Result<nat, AmountError>
    requires step.num > 0
  {
    var n, d := value.num * step.den, Spot.Pricing.Product(value.den, step.num);
    var magnitude: nat := if n < 0 then -n else n;
    if Rem(magnitude, d) != 0 then Err(Unaligned)
    else if requirePositive && n == 0 then Err(ZeroAmount)
    else if n < 0 then Err(NegativeAmount)
    else Ok(Quo(magnitude, d))
  }

  /** value is k steps. */
  predicate Steps(value: Spot.Rational, step: Spot.Rational, k: int) {
    Spot.Equal(value, Spot.Ratio(k * step.num, step.den))
  }

  /** An amount is accepted exactly when it is a whole number of steps, not negative, and positive
      where required, and then as that number; each other case has its own error. */
  lemma NormalizeAmountIff(value: Spot.Rational, step: Spot.Rational, requirePositive: bool)
    requires step.num > 0
    ensures var r := NormalizeAmount(value, step, requirePositive);
            && (r == Err(Unaligned) <==> !exists k :: Steps(value, step, k))
            && (r == Err(ZeroAmount) <==> requirePositive && value.num == 0)
            && (r == Err(NegativeAmount) <==> value.num < 0 && exists k :: Steps(value, step, k))
            && (forall k: nat :: r == Ok(k) <==> Steps(value, step, k) && (requirePositive ==> k > 0))
  {
    hide Quo, Rem;
    var n, d := value.num * step.den, Spot.Pricing.Product(value.den, step.num);
    var magnitude: nat := if n < 0 then -n else n;
    SameSign(value.num, step.den);
    QuoRem(magnitude, d);
    var q: int := Quo(magnitude, d);
    if Rem(magnitude, d) == 0 {
      var k := if n < 0 then -q else q;
      StepsMean(value, step, k);
      assert n == k * d;
      assert Steps(value, step, k);
    }
    forall k | Steps(value, step, k)
      ensures Rem(magnitude, d) == 0 && q == if n < 0 then -k else k
    {
      StepsMean(value, step, k);
      OneQuotient(n, d, k);
    }
    if Rem(magnitude, d) == 0 && n == 0 { QuoRemUnique(0, d, 0, 0); }
    hide Steps;
  }

  lemma SameSign(n: int, d: nat)
    requires d > 0
    ensures (n * d < 0 <==> n < 0) && (n * d == 0 <==> n == 0)
  {
    if n > 0 { MulMono(1, n, d); }
    if n < 0 { MulMono(n, -1, d); }
  }

  lemma StepsMean(value: Spot.Rational, step: Spot.Rational, k: int)
    requires step.num > 0
    ensures Steps(value, step, k) <==> value.num * step.den == k * Spot.Pricing.Product(value.den, step.num)
  {
    assert k * step.num * value.den == k * (value.den * step.num);
  }

  lemma OneQuotient(n: int, d: nat, k: int)
    requires d > 0 && n == k * d
    ensures var magnitude: nat := if n < 0 then -n else n;
            Rem(magnitude, d) == 0 && Quo(magnitude, d) == if n < 0 then -k else k
  {
    hide Quo, Rem;
    SameSign(k, d);
    QuoRemUnique(if n < 0 then -n else n, d, if n < 0 then -k else k, 0);
  }

  // ---------------------------------------------------------------- what admission promises

  function Action(o: Order): TradeAction
    requires ParseActionTradeData(o.actionData).Ok?
  {
    ParseActionTradeData(o.actionData).value
  }

  function PriceScale(o: Order): nat
    requires ParseActionTradeData(o.actionData).Ok? && o.ticks > 0
  {
    Quo(Action(o).limitPrice, o.ticks)
  }

  function AmountScale(o: Order): nat
    requires ParseActionTradeData(o.actionData).Ok? && o.desired > 0
  {
    Quo(Action(o).desiredAmount, o.desired)
  }

  /** The divisible branch leaves integer scales of at least one. */
  lemma DivisibleScales(o: Order, step: Spot.Rational)
    requires ValidateActionDataInvariants(o, step) == Ok(Divisible)
    ensures PriceScale(o) >= 1 && AmountScale(o) >= 1
    ensures Action(o).limitPrice == PriceScale(o) * o.ticks
    ensures Action(o).desiredAmount == AmountScale(o) * o.desired
  {
    hide Quo, Rem, ParseActionTradeData;
    QuoRem(Action(o).limitPrice, o.ticks);
    QuoRem(Action(o).desiredAmount, o.desired);
  }

  /** The compatibility branch admits only signed amounts below the stored amount. */
  lemma CompatibleIsBelowStored(o: Order, step: Spot.Rational)
    requires ValidateActionDataInvariants(o, step) == Ok(Compatible)
    ensures 0 < Action(o).desiredAmount < o.desired
    ensures Rem(Action(o).desiredAmount, o.desired) != 0
  {
    hide ParseActionTradeData;
    var s := Action(o).desiredAmount;
    var k := ReciprocalScale(step).value;
    hide Quo, Rem, ReciprocalScale;
    if k == 1 { QuoRemUnique(s, o.desired, 1, 0); }
    if k >= 2 { MulMono(2, k, s); }
    QuoRemUnique(s, o.desired, 0, s);
  }

  /** The payload's market and side are the row's. */
  predicate ForRow(o: Order, asset: seq<Byte>, subId: nat, isBid: bool) {
    && Lower(o.market.asset) == "0x" + HexEncode(asset)
    && TrimSpace(o.market.subId) == NatText(subId)
    && (isBid <==> o.side == Buy)
  }

  /** The step is one over a whole number, and the signed amount counts such steps. */
  predicate CountsSteps(o: Order, amount: int, step: Spot.Rational) {
    step.num > 0 && Rem(step.den, step.num) == 0 && amount * step.den == o.desired * step.num
  }

  predicate FitsRow(o: Order, a: TradeAction) {
    Lower(o.market.asset) == a.asset && TrimSpace(o.market.subId) == NatText(a.subId) && (a.isBid <==> o.side == Buy)
  }

  lemma RowFits(o: Order, asset: seq<Byte>, subId: nat, price: int, amount: int, isBid: bool)
    ensures ForRow(o, asset, subId, isBid)
            <==> FitsRow(o, TradeAction("0x" + HexEncode(asset), subId, price, amount, isBid))
  {
    hide HexEncode, NatText, TrimSpace, Lower;
  }

  lemma RejectedAction(o: Order, step: Spot.Rational)
    requires ParseActionTradeData(o.actionData).Err?
    ensures ValidateActionDataInvariants(o, step).Err?
  {
    hide ParseActionTradeData;
  }

  lemma FieldsDecide(o: Order, a: TradeAction, step: Spot.Rational)
    requires ParseActionTradeData(o.actionData) == Ok(a) && a.limitPrice > 0 && a.desiredAmount > 0
    ensures var r := ValidateActionDataInvariants(o, step);
            var sound := FitsRow(o, a) && o.ticks > 0 && o.desired > 0 && exists k ::
                Multiple(a.limitPrice, o.ticks, k);
            var sized := exists k :: Multiple(a.desiredAmount, o.desired, k);
            && (r.Ok? <==> sound && (sized || CountsSteps(o, a.desiredAmount, step)))
            && (r == Ok(Divisible) <==> sound && sized)
            && (r == Ok(Compatible) <==> sound && !sized && CountsSteps(o, a.desiredAmount, step))
  {
    FieldsFirst(o, a, step);
    hide ValidateActionDataInvariants, ParseActionTradeData, FitsRow, Multiple, ValidateScales, Rem;
    if o.ticks > 0 && o.desired > 0 {
      ScalesIff(o, a, step);
      var r := ValidateScales(o, a, step);
      assert r.Ok? ==> r == Ok(Divisible) || r == Ok(Compatible);
    }
  }

  lemma FieldsFirst(o: Order, a: TradeAction, step: Spot.Rational)
    requires ParseActionTradeData(o.actionData) == Ok(a) && a.limitPrice > 0 && a.desiredAmount > 0
    ensures ValidateActionDataInvariants(o, step).Ok? ==> FitsRow(o, a) && o.ticks > 0 && o.desired > 0
    ensures FitsRow(o, a) && o.ticks > 0 && o.desired > 0
            ==> ValidateActionDataInvariants(o, step) == ValidateScales(o, a, step)
  {
    hide ParseActionTradeData, NatText, TrimSpace, Lower, ValidateScales;
  }

  /** Exactly which orders with a properly encoded payload are admitted, and by which branch: those
      whose signed price and amount are positive, whose payload is for their market and side, whose
      stored price and amount are positive, whose signed price is a whole multiple of the stored one,
      and whose signed amount is too, or else counts amount steps. */
  lemma EncodedOrderAdmittedIff(o: Order, step: Spot.Rational, asset: seq<Byte>, subId: nat, price: int, amount: int,
      fee: nat, recipient: nat, isBid: bool)
    requires |asset| == 20 && subId < Pow256(32) && FitsInt256(price) && FitsInt256(amount)
    requires o.actionData == EncodeTradeData(asset, subId, price, amount, fee, recipient, isBid)
    ensures var r := ValidateActionDataInvariants(o, step);
            var sound := && price > 0 && amount > 0 && ForRow(o, asset, subId, isBid) && o.ticks > 0 && o.desired > 0
                         && exists k :: Multiple(price, o.ticks, k);
            var sized := exists k :: Multiple(amount, o.desired, k);
            && (r.Ok? <==> sound && (sized || CountsSteps(o, amount, step)))
            && (r == Ok(Divisible) <==> sound && sized)
            && (r == Ok(Compatible) <==> sound && !sized && CountsSteps(o, amount, step))
  {
    var action := TradeAction("0x" + HexEncode(asset), subId, price, amount, isBid);
    var r := ParseActionTradeData(o.actionData);
    hide EncodeTradeData, ParseActionTradeData, DecodeTradeData, HexEncode, Multiple, FitsInt256, Pow256, Rem;
    hide ValidateActionDataInvariants, CountsSteps, ForRow;
    DecodeInvertsEncode(asset, subId, price, amount, fee, recipient, isBid);
    if price > 0 && amount > 0 {
      assert r == Ok(action);
      FieldsDecide(o, action, step);
      assert ForRow(o, asset, subId, isBid)
          <==> FitsRow(o, action) by { RowFits(o, asset, subId, price, amount, isBid); }
    } else {
      RejectedAction(o, step);
    }
  }

  /** The refusals of such an order, in order: its signs, its asset, sub id and side, and the stored
      values that are not positive. */
  lemma EncodedOrderRefusals(o: Order, step: Spot.Rational, asset: seq<Byte>, subId: nat, price: int, amount: int,
      fee: nat, recipient: nat, isBid: bool)
    requires |asset| == 20 && subId < Pow256(32) && FitsInt256(price) && FitsInt256(amount)
    requires o.actionData == EncodeTradeData(asset, subId, price, amount, fee, recipient, isBid)
    ensures var r := ValidateActionDataInvariants(o, step);
            var ofAsset := Lower(o.market.asset) == "0x" + HexEncode(asset);
            var ofSubId := TrimSpace(o.market.subId) == NatText(subId);
            if price <= 0 then r == Err(ActionRejected(PriceNotPositive))
            else if amount <= 0 then r == Err(ActionRejected(AmountNotPositive))
            else if !ofAsset then r == Err(WrongAsset)
            else if !ofSubId then r == Err(WrongSubId)
            else if o.side != (if isBid then Buy else Sell) then r == Err(WrongSide)
            else if o.ticks <= 0 || o.desired <= 0 then r == Err(NotPositiveField)
            else r.Ok? || r == Err(PriceMisaligned) || r == Err(AmountMisaligned)
  {
    hide EncodeTradeData, ParseActionTradeData, DecodeTradeData, HexEncode, FitsInt256, Pow256, NatText, TrimSpace,
        Lower,
        ReciprocalScale, Quo, Rem;
    DecodeInvertsEncode(asset, subId, price, amount, fee, recipient, isBid);
  }

  predicate Readable(o: Order) { !UpperPrefix(o.actionData) }

  lemma AdmittedMatches(o: Order, step: Spot.Rational)
    requires ValidateActionDataInvariants(o, step).Ok? && Readable(o)
    ensures DecodeTradeData(o.actionData) == Some(Action(o)) && ActionMatches(o, Action(o))
  {
    LowerTwice(o.market.asset);
    hide ParseActionTradeData, DecodeTradeData, UpperPrefix, NatText, TrimSpace, ValidateScales, Lower;
    AdmittedPayloadReadableIff(o.actionData);
  }

  lemma LowerTwice(s: string)
    ensures Lower(Lower(s)) == Lower(s)
  {
  }

  /** Two orders admitted through the divisible branch convert at execution exactly when their
      price scales and their amount scales coincide. */
  lemma AdmissionAgreesWithExecution(c: Candidate, takerStep: Spot.Rational, makerStep: Spot.Rational)
    requires ValidateActionDataInvariants(c.taker, takerStep) == Ok(Divisible) && Readable(c.taker)
    requires ValidateActionDataInvariants(c.maker, makerStep) == Ok(Divisible) && Readable(c.maker)
    requires Tradeable(c) && Crosses(c.taker, c.maker)
    ensures ComputeExecutionUnits(c, c.maker.ticks, FillOf(c)).Ok?
            <==> PriceScale(c.taker) == PriceScale(c.maker) && AmountScale(c.taker) == AmountScale(c.maker)
    ensures ComputeExecutionUnits(c, c.maker.ticks, FillOf(c)).Err?
            ==> ComputeExecutionUnits(c, c.maker.ticks, FillOf(c)) == Err(BadScale(ScalesDiffer))
  {
    var (t, m) := (c.taker, c.maker);
    AdmittedMatches(t, takerStep);
    AdmittedMatches(m, makerStep);
    DivisibleScales(t, takerStep);
    DivisibleScales(m, makerStep);
    hide ParseActionTradeData, DecodeTradeData, ActionMatches, ValidateActionDataInvariants, InferSharedScale,
        PriceScale, AmountScale, WithinSignedLimit;
    var (ta, ma) := (Action(t), Action(m));
    DivisiblePairScale(t.ticks, ta.limitPrice, PriceScale(t), m.ticks, ma.limitPrice, PriceScale(m));
    DivisiblePairScale(t.desired, ta.desiredAmount, AmountScale(t), m.desired, ma.desiredAmount, AmountScale(m));
    UnitsByScales(c, ta, ma);
  }

  lemma DivisiblePairScale(lb: int, ls: int, lk: int, rb: int, rs: int, rk: int)
    requires lb > 0 && rb > 0 && lk >= 1 && rk >= 1 && ls == lk * lb && rs == rk * rb
    ensures InferSharedScale(lb, ls, rb, rs) == if lk == rk then Ok(lk) else Err(ScalesDiffer)
  {
    MulMono(1, lk, lb);
    MulMono(1, rk, rb);
    ExactQuotient(lb, ls, lk);
    ExactQuotient(rb, rs, rk);
  }

  /** An order admitted through the compatibility branch never converts, on either side of any
      pair. */
  lemma CompatibleNeverExecutes(c: Candidate, o: Order, step: Spot.Rational, fillTicks: int, fill: int)
    requires ValidateActionDataInvariants(o, step) == Ok(Compatible)
    requires o == c.taker || o == c.maker
    ensures ComputeExecutionUnits(c, fillTicks, fill).Err?
  {
    if DecodeTradeData(o.actionData).Some? { CompatibleAction(o, step); }
    var (td, md) := (DecodeTradeData(c.taker.actionData), DecodeTradeData(c.maker.actionData));
    hide DecodeTradeData, ValidateActionDataInvariants, UnitsOf, Indivisible;
    if td.Some? && md.Some? {
      IndivisibleUnits(c, td.value, md.value, fillTicks, fill);
    }
  }

  predicate Indivisible(base: int, signed: int) { base > 0 && signed > 0 && Rem(signed, base) != 0 }

  lemma CompatibleAction(o: Order, step: Spot.Rational)
    requires ValidateActionDataInvariants(o, step) == Ok(Compatible) && DecodeTradeData(o.actionData).Some?
    ensures Indivisible(o.desired, DecodeTradeData(o.actionData).value.desiredAmount)
  {
    CompatibleIsBelowStored(o, step);
    hide ParseActionTradeData, DecodeTradeData, ValidateActionDataInvariants, Rem, UpperPrefix;
    DecodersAgree(o.actionData);
  }

  lemma IndivisibleUnits(c: Candidate, ta: TradeAction, ma: TradeAction, fillTicks: int, fill: int)
    requires Indivisible(c.taker.desired, ta.desiredAmount) || Indivisible(c.maker.desired, ma.desiredAmount)
    ensures UnitsOf(c, ta, ma, fillTicks, fill).Err?
  {
    IndivisibleScale(c.taker.desired, ta.desiredAmount, c.maker.desired, ma.desiredAmount);
    hide ActionMatches, WithinSignedLimit, InferSharedScale, Rem;
  }

  lemma IndivisibleScale(lb: int, ls: int, rb: int, rs: int)
    requires Indivisible(lb, ls) || Indivisible(rb, rs)
    ensures InferSharedScale(lb, ls, rb, rs).Err?
  {
    hide Quo, Rem;
  }
}

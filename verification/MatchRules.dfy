/** internal/matching: the matcher's decisions about one reserved pair, and the conversion of a fill
    into the units the two owners signed. */
module MatchRules {
  import opened Arith
  import opened DecimalText
  import opened Orders
  import opened TradeData
  import opened Wrappers

  // ---------------------------------------------------------------- engine.go

  function Remaining(o: Order): int { Max0(o.desired - o.filled) }

  predicate Crosses(taker: Order, maker: Order) {
    if taker.side.Buy? then taker.ticks >= maker.ticks else taker.ticks <= maker.ticks
  }

  function FillOf(c: Candidate): int {
    if Remaining(c.taker) <= Remaining(c.maker) then Remaining(c.taker) else Remaining(c.maker)
  }

  datatype Decision = Release | MarkFailed(cause: UnitsError) | Submit(units: Units, fill: int)

  /** What a tick does with its pair before it talks to the executor. */
  function Decide(c: Candidate, now: int): Decision {
    if c.taker.IsExpired(now) || c.maker.IsExpired(now) then Release
    else if !Crosses(c.taker, c.maker) then Release
    else if FillOf(c) == 0 then Release
    else
      match ComputeExecutionUnits(c, c.maker.ticks, FillOf(c))
      case Err(e) => MarkFailed(e)
      case Ok(units) => Submit(units, FillOf(c))
  }

  /** Whichever order takes, a bid and an ask cross exactly when the bid is at or above the ask. */
  lemma CrossesIff(bid: Order, ask: Order)
    requires bid.side.Buy? && ask.side.Sell?
    ensures var c := ChooseTakerMaker(bid, ask); Crosses(c.taker, c.maker) <==> bid.ticks >= ask.ticks
  {
  }

  // ---------------------------------------------------------------- trade_units.go

  datatype Units = Units(price: int, amount: int)

  datatype ScaleError = BaseNotPositive | SignedNotPositive | LeftIndivisible | RightIndivisible | ScalesDiffer

  datatype UnitsError =
    | BadAction
    | WrongMarket
    | BadField
    | BadScale(cause: ScaleError)
    | ExceedsRemaining
    | OutsideSignedLimit

  function InferSharedScale(leftBase: int, leftSigned: int, rightBase: int, rightSigned: int): Result<int, ScaleError> {
    if leftBase <= 0 || rightBase <= 0 then Err(BaseNotPositive)
    else if leftSigned <= 0 || rightSigned <= 0 then Err(SignedNotPositive)
    else if Rem(leftSigned, leftBase) != 0 then Err(LeftIndivisible)
    else if Rem(rightSigned, rightBase) != 0 then Err(RightIndivisible)
    else if Quo(leftSigned, leftBase) != Quo(rightSigned, rightBase) then Err(ScalesDiffer)
    else Ok(Quo(leftSigned, leftBase))
  }

  predicate ActionMatches(o: Order, a: TradeAction) {
    && Lower(a.asset) == Lower(o.market.asset)
    && NatText(a.subId) == TrimSpace(o.market.subId)
    && a.isBid == o.side.Buy?
  }

  predicate WithinSignedLimit(o: Order, a: TradeAction, price: int) {
    if o.side.Buy? then price <= a.limitPrice else price >= a.limitPrice
  }

  function ComputeExecutionUnits(c: Candidate, fillTicks: int, fill: int): Result<Units, UnitsError> {
    match (DecodeTradeData(c.taker.actionData), DecodeTradeData(c.maker.actionData))
    case (Some(ta), Some(ma)) => UnitsOf(c, ta, ma, fillTicks, fill)
    case _ => Err(BadAction)
  }

  function UnitsOf(c: Candidate, ta: TradeAction, ma: TradeAction, fillTicks: int, fill: int): Result<Units,
      UnitsError> {
    var (t, m) := (c.taker, c.maker);
    if !ActionMatches(t, ta) || !ActionMatches(m, ma) then Err(WrongMarket)
    else if t.ticks <= 0 || m.ticks <= 0 || fillTicks <= 0 || t.desired <= 0 || m.desired <= 0
        || fill <= 0 then Err(BadField)
    else
      match InferSharedScale(t.ticks, ta.limitPrice, m.ticks, ma.limitPrice)
      case Err(e) => Err(BadScale(e))
      case Ok(priceScale) =>
        match InferSharedScale(t.desired, ta.desiredAmount, m.desired, ma.desiredAmount)
        case Err(e) => Err(BadScale(e))
        case Ok(amountScale) =>
          var units := Units(fillTicks * priceScale, fill * amountScale);
          if t.filled < 0 || m.filled < 0 || t.desired < t.filled || m.desired < m.filled then Err(BadField)
          else if units.amount > (t.desired - t.filled) * amountScale then Err(ExceedsRemaining)
          else if units.amount > (m.desired - m.filled) * amountScale then Err(ExceedsRemaining)
          else if !WithinSignedLimit(t, ta, units.price)
              || !WithinSignedLimit(m, ma, units.price) then Err(OutsideSignedLimit)
          else Ok(units)
  }

  /** k maps both stored values to both signed values. */
  predicate SharedScale(k: int, leftBase: int, leftSigned: int, rightBase: int, rightSigned: int) {
    k > 0 && leftSigned == k * leftBase && rightSigned == k * rightBase
  }

  lemma InferSharedScaleIff(lb: int, ls: int, rb: int, rs: int, k: int)
    requires lb > 0 && rb > 0
    ensures InferSharedScale(lb, ls, rb, rs) == Ok(k) <==> SharedScale(k, lb, ls, rb, rs)
    ensures InferSharedScale(lb, ls, rb, rs).Ok? ==> SharedScale(InferSharedScale(lb, ls, rb, rs).value, lb, ls, rb, rs)
  {
    if ls > 0 && rs > 0 {
      ExactQuotient(lb, ls, k);
      ExactQuotient(rb, rs, k);
      ExactQuotient(lb, ls, Quo(ls, lb));
      ExactQuotient(rb, rs, Quo(ls, lb));
    }
    if SharedScale(k, lb, ls, rb, rs) {
      MulMono(1, k, lb);
      MulMono(1, k, rb);
    }
  }

  /** signed is a whole multiple of base. */
  predicate Times(base: int, signed: int, k: int) { signed == k * base }

  /** The errors of the inference, in order: a value that is not positive, then a left side and a
      right side that no integer scales, then two scales that differ. */
  lemma InferSharedScaleErrors(lb: int, ls: int, rb: int, rs: int)
    ensures var r := InferSharedScale(lb, ls, rb, rs);
            var positive := lb > 0 && rb > 0 && ls > 0 && rs > 0;
            && (r == Err(BaseNotPositive) <==> lb <= 0 || rb <= 0)
            && (r == Err(SignedNotPositive) <==> lb > 0 && rb > 0 && (ls <= 0 || rs <= 0))
            && (r == Err(LeftIndivisible) <==> positive && !exists k :: Times(lb, ls, k))
            && (r == Err(RightIndivisible) <==> positive && (exists k :: Times(lb, ls, k)) && !exists k ::
              Times(rb, rs, k))
            && (r == Err(ScalesDiffer)
                <==> positive && exists j, k :: Times(lb, ls, j) && Times(rb, rs, k) && j != k)
  {
    hide Quo, Rem;
    if lb > 0 && rb > 0 && ls > 0 && rs > 0 {
      TimesIff(lb, ls);
      TimesIff(rb, rs);
      hide Times;
    }
  }

  lemma TimesIff(base: int, signed: int)
    requires base > 0 && signed > 0
    ensures Rem(signed, base) == 0 <==> exists k :: Times(base, signed, k)
    ensures forall k :: Times(base, signed, k) ==> Quo(signed, base) == k
    ensures Rem(signed, base) == 0 ==> Times(base, signed, Quo(signed, base))
  {
    hide Quo, Rem;
    QuoRem(signed, base);
    if Rem(signed, base) == 0 { assert Times(base, signed, Quo(signed, base)); }
    forall k | Times(base, signed, k) ensures Quo(signed, base) == k && Rem(signed, base) == 0 {
      QuoRemUnique(signed, base, k, 0);
    }
  }

  lemma ExactQuotient(base: int, signed: int, k: int)
    requires base > 0 && signed > 0
    ensures Rem(signed, base) == 0 && Quo(signed, base) == k <==> signed == k * base
    ensures Rem(signed, base) == 0 ==> Quo(signed, base) > 0
  {
    hide Quo, Rem;
    QuoRem(signed, base);
    if signed == k * base {
      QuoRemUnique(signed, base, k, 0);
    }
  }

  /** A pair as the store can hold it: opposite sides, positive ticks, room left on both. */
  predicate Tradeable(c: Candidate) {
    && c.taker.side != c.maker.side
    && c.taker.ticks > 0 && c.maker.ticks > 0
    && 0 <= c.taker.filled < c.taker.desired
    && 0 <= c.maker.filled < c.maker.desired
  }

  predicate Convertible(c: Candidate, ps: int, amounts: int) {
    var (td, md) := (DecodeTradeData(c.taker.actionData), DecodeTradeData(c.maker.actionData));
    && td.Some? && md.Some?
    && ActionMatches(c.taker, td.value) && ActionMatches(c.maker, md.value)
    && SharedScale(ps, c.taker.ticks, td.value.limitPrice, c.maker.ticks, md.value.limitPrice)
    && SharedScale(amounts, c.taker.desired, td.value.desiredAmount, c.maker.desired, md.value.desiredAmount)
  }

  /** Scaling by a common positive factor keeps order, so the maker's price is inside both signed
      limits whenever the ticks cross. */
  lemma ScaledLimits(c: Candidate, ta: TradeAction, ma: TradeAction, k: int)
    requires Tradeable(c) && Crosses(c.taker, c.maker)
    requires SharedScale(k, c.taker.ticks, ta.limitPrice, c.maker.ticks, ma.limitPrice)
    ensures WithinSignedLimit(c.taker, ta, c.maker.ticks * k) && WithinSignedLimit(c.maker, ma, c.maker.ticks * k)
  {
    ScaledOrder(c.maker.ticks, c.taker.ticks, k);
    ScaledOrder(c.taker.ticks, c.maker.ticks, k);
  }

  /** For a crossing pair priced at the maker's ticks and sized at the smaller remainder, the
      remaining-amount and signed-limit checks never fail: conversion succeeds exactly when both
      actions are readable, match their orders and share one positive price scale and one amount
      scale, and it then multiplies by those scales. */
  lemma ConversionIff(c: Candidate, ps: int, amounts: int)
    requires Tradeable(c) && Crosses(c.taker, c.maker)
    ensures var r := ComputeExecutionUnits(c, c.maker.ticks, FillOf(c));
            && (Convertible(c, ps, amounts) ==> r == Ok(Units(c.maker.ticks * ps, FillOf(c) * amounts)))
            && (r.Ok? ==> exists p, a :: Convertible(c, p, a) && r.value == Units(c.maker.ticks * p, FillOf(c) * a))
            && r != Err(ExceedsRemaining) && r != Err(OutsideSignedLimit) && r != Err(BadField)
  {
    hide ActionMatches, InferSharedScale, DecodeTradeData, SharedScale, WithinSignedLimit;
    var (td, md) := (DecodeTradeData(c.taker.actionData), DecodeTradeData(c.maker.actionData));
    if td.Some? && md.Some? && ActionMatches(c.taker, td.value) && ActionMatches(c.maker, md.value) {
      InferSharedScaleIff(c.taker.ticks, td.value.limitPrice, c.maker.ticks, md.value.limitPrice, ps);
      InferSharedScaleIff(c.taker.desired, td.value.desiredAmount, c.maker.desired, md.value.desiredAmount, amounts);
      var pr := InferSharedScale(c.taker.ticks, td.value.limitPrice, c.maker.ticks, md.value.limitPrice);
      var ar := InferSharedScale(c.taker.desired, td.value.desiredAmount, c.maker.desired, md.value.desiredAmount);
      UnitsByScales(c, td.value, md.value);
      if pr.Ok? && ar.Ok? {
        assert Convertible(c, pr.value, ar.value);
      }
    }
  }

  /** o's owner signed exactly this order: its market, its side, and its price and amount in units of
      p per tick and k per stored unit. */
  ghost predicate SignedAt(o: Order, p: int, k: int) {
    DecodeTradeData(o.actionData).Some? &&
    var a := DecodeTradeData(o.actionData).value;
    && Lower(a.asset) == Lower(o.market.asset) && TrimSpace(o.market.subId) == NatText(a.subId)
    && (o.side == Buy <==> a.isBid)
    && p > 0 && k > 0 && a.limitPrice == p * o.ticks && a.desiredAmount == k * o.desired
  }

  lemma SignedAtIff(c: Candidate, p: int, k: int)
    ensures Convertible(c, p, k) <==> SignedAt(c.taker, p, k) && SignedAt(c.maker, p, k)
  {
    hide DecodeTradeData, NatText, TrimSpace, Lower;
  }

  /** A crossing pair with room converts at exactly the prices and amounts that both owners signed it
      at: at p per tick and k per unit, if both signed their own market and side at p and k; and not
      at all if no such p and k exist. */
  lemma ConvertsIff(c: Candidate)
    requires Tradeable(c) && Crosses(c.taker, c.maker)
    ensures var r := ComputeExecutionUnits(c, c.maker.ticks, FillOf(c));
            && (r.Ok? <==> exists p, k :: SignedAt(c.taker, p, k) && SignedAt(c.maker, p, k))
            && (forall p, k :: SignedAt(c.taker, p, k) && SignedAt(c.maker, p, k)
                               ==> r == Ok(Units(c.maker.ticks * p, FillOf(c) * k)))
  {
    var r := ComputeExecutionUnits(c, c.maker.ticks, FillOf(c));
    hide ComputeExecutionUnits, Convertible, SignedAt, Tradeable, Crosses, FillOf;
    ConversionIff(c, 0, 0);
    if r.Ok? {
      var p, k :| Convertible(c, p, k) && r.value == Units(c.maker.ticks * p, FillOf(c) * k);
      SignedAtIff(c, p, k);
    }
    forall p, k | SignedAt(c.taker, p, k) && SignedAt(c.maker, p, k)
      ensures r == Ok(Units(c.maker.ticks * p, FillOf(c) * k))
    {
      SignedAtIff(c, p, k);
      ConversionIff(c, p, k);
    }
  }

  /** At p per tick and k per unit the pair can trade fill at fillTicks: both owners signed it at p and
      k, the fill fits what is left of each, and the price is inside each order's own limit. */
  ghost predicate Executes(c: Candidate, fillTicks: int, fill: int, p: int, k: int) {
    && SignedAt(c.taker, p, k) && SignedAt(c.maker, p, k)
    && c.taker.ticks > 0 && c.maker.ticks > 0 && fillTicks > 0 && fill > 0
    && 0 <= c.taker.filled && c.taker.filled + fill <= c.taker.desired
    && 0 <= c.maker.filled && c.maker.filled + fill <= c.maker.desired
    && (if c.taker.side == Buy then fillTicks <= c.taker.ticks else fillTicks >= c.taker.ticks)
    && (if c.maker.side == Buy then fillTicks <= c.maker.ticks else fillTicks >= c.maker.ticks)
  }

  /** At any price and size whatever: conversion succeeds exactly when the pair can trade so, and
      then scales both. */
  lemma UnitsIff(c: Candidate, fillTicks: int, fill: int)
    ensures var r := ComputeExecutionUnits(c, fillTicks, fill);
            && (r.Ok? <==> exists p, k :: Executes(c, fillTicks, fill, p, k))
            && (forall p, k :: Executes(c, fillTicks, fill, p, k) ==> r == Ok(Units(fillTicks * p, fill * k)))
  {
    var (r, td, md) := (ComputeExecutionUnits(c, fillTicks, fill), DecodeTradeData(c.taker.actionData),
                        DecodeTradeData(c.maker.actionData));
    hide DecodeTradeData, UnitsOf, SignedAt, ActionMatches, SharedScale;
    if r.Ok? {
      var (ta, ma) := (td.value, md.value);
      var p, k := ScalesOfUnits(c, ta, ma, fillTicks, fill);
      assert Convertible(c, p, k);
      SignedAtIff(c, p, k);
      UnitsAtScales(c, ta, ma, fillTicks, fill, p, k);
      assert Executes(c, fillTicks, fill, p, k);
    }
    forall p, k | Executes(c, fillTicks, fill, p, k) ensures r == Ok(Units(fillTicks * p, fill * k)) {
      ExecutesReads(c, fillTicks, fill, p, k);
      UnitsAtScales(c, td.value, md.value, fillTicks, fill, p, k);
    }
  }

  lemma ExecutesReads(c: Candidate, fillTicks: int, fill: int, p: int, k: int)
    requires Executes(c, fillTicks, fill, p, k)
    ensures Convertible(c, p, k) && c.taker.ticks > 0 && c.maker.ticks > 0 && fillTicks > 0 && fill > 0
    ensures c.taker.desired > 0 && c.maker.desired > 0
  {
    hide SignedAt, Convertible;
    SignedAtIff(c, p, k);
  }

  lemma ScalesOfUnits(c: Candidate, ta: TradeAction, ma: TradeAction, fillTicks: int, fill: int)
    returns (p: int, k: int)
    requires UnitsOf(c, ta, ma, fillTicks, fill).Ok?
    ensures ActionMatches(c.taker, ta) && ActionMatches(c.maker, ma)
    ensures c.taker.ticks > 0 && c.maker.ticks > 0 && fillTicks > 0 && fill > 0
    ensures c.taker.desired > 0 && c.maker.desired > 0
    ensures SharedScale(p, c.taker.ticks, ta.limitPrice, c.maker.ticks, ma.limitPrice)
    ensures SharedScale(k, c.taker.desired, ta.desiredAmount, c.maker.desired, ma.desiredAmount)
  {
    hide ActionMatches, InferSharedScale, SharedScale, WithinSignedLimit;
    p := InferSharedScale(c.taker.ticks, ta.limitPrice, c.maker.ticks, ma.limitPrice).value;
    k := InferSharedScale(c.taker.desired, ta.desiredAmount, c.maker.desired, ma.desiredAmount).value;
    InferSharedScaleIff(c.taker.ticks, ta.limitPrice, c.maker.ticks, ma.limitPrice, p);
    InferSharedScaleIff(c.taker.desired, ta.desiredAmount, c.maker.desired, ma.desiredAmount, k);
  }

  lemma UnitsAtScales(c: Candidate, ta: TradeAction, ma: TradeAction, fillTicks: int, fill: int, p: int, k: int)
    requires ActionMatches(c.taker, ta) && ActionMatches(c.maker, ma)
    requires c.taker.ticks > 0 && c.maker.ticks > 0 && fillTicks > 0 && fill > 0
    requires c.taker.desired > 0 && c.maker.desired > 0
    requires SharedScale(p, c.taker.ticks, ta.limitPrice, c.maker.ticks, ma.limitPrice)
    requires SharedScale(k, c.taker.desired, ta.desiredAmount, c.maker.desired, ma.desiredAmount)
    ensures var r := UnitsOf(c, ta, ma, fillTicks, fill);
            && (r.Ok? ==> r.value == Units(fillTicks * p, fill * k))
            && (r.Ok? <==> && 0 <= c.taker.filled && c.taker.filled + fill <= c.taker.desired
                           && 0 <= c.maker.filled && c.maker.filled + fill <= c.maker.desired
                           && (if c.taker.side == Buy then fillTicks <= c.taker.ticks else fillTicks >= c.taker.ticks)
                           && (if c.maker.side == Buy then fillTicks <= c.maker.ticks else fillTicks >= c.maker.ticks))
  {
    InferSharedScaleIff(c.taker.ticks, ta.limitPrice, c.maker.ticks, ma.limitPrice, p);
    InferSharedScaleIff(c.taker.desired, ta.desiredAmount, c.maker.desired, ma.desiredAmount, k);
    ScaledOrder(fill, c.taker.desired - c.taker.filled, k);
    ScaledOrder(fill, c.maker.desired - c.maker.filled, k);
    ScaledOrder(fillTicks, c.taker.ticks, p);
    ScaledOrder(c.taker.ticks, fillTicks, p);
    ScaledOrder(fillTicks, c.maker.ticks, p);
    ScaledOrder(c.maker.ticks, fillTicks, p);
    hide ActionMatches, InferSharedScale;
  }

  lemma ScaledOrder(a: int, b: int, k: int)
    requires k > 0
    ensures a * k <= b * k <==> a <= b
  {
    if a <= b { MulMono(a, b, k); } else { MulMono(b + 1, a, k); }
  }

  /** What a tick makes of its pair, read off the rows: nothing if an order is dead, the prices do not
      cross or one side has nothing left; else a submission exactly when the two owners signed at one
      price and one amount scale, and a failure if they did not. */
  lemma DecideIff(c: Candidate, now: int)
    requires c.taker.side != c.maker.side && c.taker.ticks > 0 && c.maker.ticks > 0
    requires 0 <= c.taker.filled <= c.taker.desired && 0 <= c.maker.filled <= c.maker.desired
    ensures var (d, t, m) := (Decide(c, now), c.taker, c.maker);
            var dead := || t.expiry <= now || m.expiry <= now || t.filled == t.desired || m.filled == m.desired
                        || (if t.side == Buy then t.ticks < m.ticks else t.ticks > m.ticks);
            && (d == Release <==> dead)
            && (d.Submit? <==> !dead && exists p, k :: SignedAt(t, p, k) && SignedAt(m, p, k))
            && (d.MarkFailed? <==> !dead && !exists p, k :: SignedAt(t, p, k) && SignedAt(m, p, k))
  {
    hide ComputeExecutionUnits, SignedAt;
    if Tradeable(c) && Crosses(c.taker, c.maker) { ConvertsIff(c); }
  }

  /** Once both actions match, only the two scales decide. */
  lemma UnitsByScales(c: Candidate, ta: TradeAction, ma: TradeAction)
    requires Tradeable(c) && Crosses(c.taker, c.maker) && ActionMatches(c.taker, ta) && ActionMatches(c.maker, ma)
    ensures var ps := InferSharedScale(c.taker.ticks, ta.limitPrice, c.maker.ticks, ma.limitPrice);
            var amounts := InferSharedScale(c.taker.desired, ta.desiredAmount, c.maker.desired, ma.desiredAmount);
            UnitsOf(c, ta, ma, c.maker.ticks, FillOf(c)) ==
            if ps.Err? then Err(BadScale(ps.error))
            else if amounts.Err? then Err(BadScale(amounts.error))
            else Ok(Units(c.maker.ticks * ps.value, FillOf(c) * amounts.value))
  {
    hide ActionMatches, InferSharedScale, WithinSignedLimit;
    var ps := InferSharedScale(c.taker.ticks, ta.limitPrice, c.maker.ticks, ma.limitPrice);
    var amounts := InferSharedScale(c.taker.desired, ta.desiredAmount, c.maker.desired, ma.desiredAmount);
    InferSharedScaleIff(c.taker.ticks, ta.limitPrice, c.maker.ticks, ma.limitPrice, 0);
    InferSharedScaleIff(c.taker.desired, ta.desiredAmount, c.maker.desired, ma.desiredAmount, 0);
    if ps.Ok? && amounts.Ok? {
      ScaledLimits(c, ta, ma, ps.value);
      MulMono(FillOf(c), c.taker.desired - c.taker.filled, amounts.value);
      MulMono(FillOf(c), c.maker.desired - c.maker.filled, amounts.value);
    }
  }

  function SignedAmount(o: Order): int {
    match DecodeTradeData(o.actionData)
    case Some(a) => a.desiredAmount
    case None => 0
  }

  function SignedPrice(o: Order): int {
    match DecodeTradeData(o.actionData)
    case Some(a) => a.limitPrice
    case None => 0
  }

  /** A submission carries the price the maker signed, and the two owners' signed limits have it
      between them. */
  lemma SubmitPrice(c: Candidate, now: int)
    requires Decide(c, now).Submit? && c.taker.side != c.maker.side
    ensures var price := Decide(c, now).units.price;
            && price == SignedPrice(c.maker)
            && (if c.taker.side == Buy then price <= SignedPrice(c.taker) else price >= SignedPrice(c.taker))
  {
    var (r, fill) := (ComputeExecutionUnits(c, c.maker.ticks, FillOf(c)), FillOf(c));
    SubmitMeans(c, now);
    hide ComputeExecutionUnits, FillOf, SignedAt, Tradeable, Crosses, DecodeTradeData;
    ConvertsIff(c);
    var p, k :| SignedAt(c.taker, p, k) && SignedAt(c.maker, p, k);
    SignedPrices(c, p, k);
  }

  lemma SignedPrices(c: Candidate, p: int, k: int)
    requires SignedAt(c.taker, p, k) && SignedAt(c.maker, p, k) && Crosses(c.taker, c.maker)
    ensures c.maker.ticks * p == SignedPrice(c.maker)
    ensures if c.taker.side == Buy then c.maker.ticks * p <= SignedPrice(c.taker)
            else c.maker.ticks * p >= SignedPrice(c.taker)
  {
    hide DecodeTradeData, NatText, TrimSpace, Lower;
    ScaledOrder(c.maker.ticks, c.taker.ticks, p);
    ScaledOrder(c.taker.ticks, c.maker.ticks, p);
  }

  lemma SignedByAction(a: Order, b: Order)
    requires a.actionData == b.actionData
    ensures SignedAmount(a) == SignedAmount(b)
  {
    hide DecodeTradeData;
  }

  /** The submitted amount is the fill in each owner's own signed proportion, inside both signed
      amounts, and the pair really crosses. */
  lemma SubmitMeans(c: Candidate, now: int)
    requires Decide(c, now).Submit?
    requires c.taker.side != c.maker.side
    ensures var d := Decide(c, now);
            && d.fill == FillOf(c) > 0 && d.units.amount > 0
            && now < c.taker.expiry && now < c.maker.expiry
            && d.fill <= c.taker.desired - c.taker.filled && d.fill <= c.maker.desired - c.maker.filled
            && (d.fill == c.taker.desired - c.taker.filled || d.fill == c.maker.desired - c.maker.filled)
            && Crosses(c.taker, c.maker) && Tradeable(c)
            && d.units.amount * c.taker.desired == d.fill * SignedAmount(c.taker)
            && d.units.amount * c.maker.desired == d.fill * SignedAmount(c.maker)
            && SignedAmount(c.taker) > 0 && SignedAmount(c.maker) > 0
  {
    hide ActionMatches, DecodeTradeData, InferSharedScale, SharedScale, WithinSignedLimit;
    var units := Decide(c, now).units;
    var fill := FillOf(c);
    var (ta, ma) := (DecodeTradeData(c.taker.actionData).value, DecodeTradeData(c.maker.actionData).value);
    var k := InferSharedScale(c.taker.desired, ta.desiredAmount, c.maker.desired, ma.desiredAmount).value;
    InferSharedScaleIff(c.taker.desired, ta.desiredAmount, c.maker.desired, ma.desiredAmount, k);
    ProportionalUnits(k, fill, c.taker.desired, ta.desiredAmount, c.maker.desired, ma.desiredAmount);
  }

  lemma ProportionalUnits(k: int, fill: int, tb: int, ts: int, mb: int, ms: int)
    requires SharedScale(k, tb, ts, mb, ms) && fill > 0 && tb > 0 && mb > 0
    ensures fill * k > 0 && ts > 0 && ms > 0
    ensures (fill * k) * tb == fill * ts && (fill * k) * mb == fill * ms
  {
    MulMono(1, k, fill);
    MulMono(1, k, tb);
    MulMono(1, k, mb);
  }
}

/** The matching protocol as a transition system: API calls, any number of matchers whose ticks are
    cut into their atomic steps, and the chain behind the executor. Every label carries the choices
    the environment makes, so a run is a sequence of labels. */
module Protocol {
  import opened MatchRules
  import opened Orders
  import opened Wrappers

  /** A match carried out on chain: fill in stored amounts, units in signed amounts. */
  datatype Execution = Execution(taker: string, maker: string, fill: int, units: int) {
    predicate Names(id: string) { taker == id || maker == id }
  }

  datatype Stage =
    | Checking(now: int)
    | Submitting(units: int, fill: int)
    | Recording(units: int, fill: int)
    | Failing
    | Releasing

  /** Where a matcher stands inside one tick. */
  datatype Phase = Idle | Busy(pair: Candidate, stage: Stage)

  /** born, settled, executions and unrecorded are history: rows as created, the on-chain match
      behind each trade row, all matches on chain, and those with no trade row yet. */
  datatype State = State(db: Db, matchers: seq<Phase>, born: map<string, Order>,
                         settled: seq<Execution>, executions: seq<Execution>, unrecorded: seq<Execution>)

  datatype Transport = Delivered | ReplyLost | NotDelivered

  datatype Step =
    | Create(o: Order)
    | Cancel(owner: string, nonce: real)
    | Expire(now: int)
    | Acquire(k: nat, market: Market, now: int, bid: Option<nat>, ask: Option<nat>)
    | Check(k: nat)
    | Send(k: nat, transport: Transport)
    | Record(k: nat, dbOk: bool)
    | RecordUnheard(k: nat)
    | Fail(k: nat, dbOk: bool)
    | LetGo(k: nat, dbOk: bool)
    | Crash(k: nat)

  /** What the API admits: desired and ticks positive, filled between zero and desired. */
  predicate Sound(o: Order) { 0 <= o.filled <= o.desired && o.desired > 0 && o.ticks > 0 }

  predicate Working(s: State, k: nat) { k < |s.matchers| && s.matchers[k].Busy? }

  predicate Enabled(s: State, step: Step) {
    match step
    case Create(o) => Sound(o)
    case Cancel(_, _) => true
    case Expire(_) => true
    case Acquire(k, market, now, bid, ask) =>
      && k < |s.matchers| && s.matchers[k].Idle?
      && IsHead(ExpireRows(s.db.rows, now), market, Buy, bid)
      && IsHead(ExpireRows(s.db.rows, now), market, Sell, ask)
    case Check(k) => Working(s, k) && s.matchers[k].stage.Checking?
    case Send(k, _) => Working(s, k) && s.matchers[k].stage.Submitting?
    case Record(k, _) => Working(s, k) && s.matchers[k].stage.Recording?
    case RecordUnheard(k) => Working(s, k) && s.matchers[k].stage.Recording?
    case Fail(k, _) => Working(s, k) && s.matchers[k].stage.Failing?
    case LetGo(k, _) => Working(s, k) && s.matchers[k].stage.Releasing?
    case Crash(k) => Working(s, k)
  }

  // ---------------------------------------------------------------- the chain

  /** Signed amount already used by matches that name the order. */
  function Used(es: seq<Execution>, id: string): int {
    if es == [] then 0
    else Used(es[..|es| - 1], id) + if es[|es| - 1].Names(id) then es[|es| - 1].units else 0
  }

  /** The chain caps every signed order and refuses a match that would pass either cap. */
  predicate Refused(executions: seq<Execution>, c: Candidate, units: int) {
    || Used(executions, c.taker.orderId) + units > SignedAmount(c.taker)
    || Used(executions, c.maker.orderId) + units > SignedAmount(c.maker)
  }

  datatype Reply = Accepted | FillLimitCrossed | OtherError

  function ChainResult(executions: seq<Execution>, c: Candidate, units: int, fill: int, transport: Transport):
    (seq<Execution>, Reply)
  {
    if transport == NotDelivered then (executions, OtherError)
    else if Refused(executions, c, units) then
      (executions, if transport == Delivered then FillLimitCrossed else OtherError)
    else
      (executions + [Execution(c.taker.orderId, c.maker.orderId, fill, units)],
       if transport == Delivered then Accepted else OtherError)
  }

  /** Finalise on acceptance, and on the one error that says the fill is already on chain. */
  predicate ShouldFinalize(reply: Reply) { reply != OtherError }

  // ---------------------------------------------------------------- the steps

  function Ids(c: Candidate): set<string> { {c.taker.orderId, c.maker.orderId} }

  function MatchOf(c: Candidate, units: int, fill: int): Execution {
    Execution(c.taker.orderId, c.maker.orderId, fill, units)
  }

  function RemoveOne(es: seq<Execution>, e: Execution): seq<Execution> {
    if es == [] then [] else if es[0] == e then es[1..] else [es[0]] + RemoveOne(es[1..], e)
  }

  function CheckStage(c: Candidate, now: int): Stage {
    match Decide(c, now)
    case Release => Releasing
    case MarkFailed(_) => Failing
    case Submit(units, fill) => Submitting(units.amount, fill)
  }

  function WithPhase(s: State, k: nat, p: Phase): State
    requires k < |s.matchers|
  {
    s.(matchers := s.matchers[k := p])
  }

  function Apply(s: State, step: Step): State
    requires Enabled(s, step)
  {
    match step
    case Create(o) =>
      (match CreateTx(s.db, o)
       case Err(_) => s
       case Ok(db) => s.(db := db, born := s.born[o.orderId := o.(status := Active)]))
    case Cancel(owner, nonce) =>
      (match CancelTx(s.db, owner, nonce) case Err(_) => s case Ok(db) => s.(db := db))
    case Expire(now) => s.(db := s.db.(rows := ExpireRows(s.db.rows, now)))
    case Acquire(k, market, now, bid, ask) =>
      var (rows, pair) := AcquireTx(s.db.rows, now, bid, ask);
      WithPhase(s.(db := s.db.(rows := rows)), k, if pair.Some? then Busy(pair.value, Checking(now)) else Idle)
    case Check(k) =>
      var p := s.matchers[k];
      WithPhase(s, k, p.(stage := CheckStage(p.pair, p.stage.now)))
    case Send(k, transport) => SendStep(s, k, transport)
    case Record(k, dbOk) => RecordStep(s, k, dbOk)
    case RecordUnheard(k) => WithPhase(RecordStep(s, k, true), k, s.matchers[k].(stage := Releasing))
    case Fail(k, dbOk) =>
      var p := s.matchers[k];
      WithPhase(if dbOk then Unreserve(s, p.pair) else s, k, p.(stage := Releasing))
    case LetGo(k, dbOk) =>
      WithPhase(if dbOk then Unreserve(s, s.matchers[k].pair) else s, k, Idle)
    case Crash(k) => WithPhase(s, k, Idle)
  }

  function Unreserve(s: State, c: Candidate): State {
    s.(db := s.db.(rows := ReleaseRows(s.db.rows, Ids(c))))
  }

  function SendStep(s: State, k: nat, transport: Transport): State
    requires Enabled(s, Send(k, transport))
  {
    var (c, units, fill) := (s.matchers[k].pair, s.matchers[k].stage.units, s.matchers[k].stage.fill);
    var (executions, reply) := ChainResult(s.executions, c, units, fill, transport);
    var pending := if executions == s.executions then s.unrecorded else s.unrecorded + [MatchOf(c, units, fill)];
    WithPhase(s.(executions := executions, unrecorded := pending), k,
              Busy(c, if ShouldFinalize(reply) then Recording(units, fill) else Failing))
  }

  /** A recording whose commit took effect but was answered with an error moves on as if it had
      failed. */
  function RecordStep(s: State, k: nat, dbOk: bool): (s': State)
    requires Enabled(s, Record(k, dbOk))
    ensures |s'.matchers| == |s.matchers|
  {
    var (c, units, fill) := (s.matchers[k].pair, s.matchers[k].stage.units, s.matchers[k].stage.fill);
    var r := FinalizeTx(s.db, c.taker.orderId, c.maker.orderId, c.maker.limitPrice, fill);
    if dbOk && r.Ok? then
      var e := MatchOf(c, units, fill);
      WithPhase(s.(db := r.value, settled := s.settled + [e], unrecorded := RemoveOne(s.unrecorded, e)), k, Idle)
    else
      WithPhase(s, k, Busy(c, Releasing))
  }

  // ---------------------------------------------------------------- runs

  predicate Run(s: State, steps: seq<Step>, s': State)
    decreases |steps|
  {
    if steps == [] then s' == s
    else Enabled(s, steps[0]) && Run(Apply(s, steps[0]), steps[1..], s')
  }

  function Initial(n: nat): State {
    State(Db([], []), seq(n, i => Idle), map[], [], [], [])
  }

  // ---------------------------------------------------------------- the invariant of every run

  /** Sum of the recorded sizes of trades naming the order as taker or maker. */
  function TradeVolume(trades: seq<Trade>, id: string): int {
    if trades == [] then 0
    else
      var t := trades[|trades| - 1];
      TradeVolume(trades[..|trades| - 1], id) + if t.taker == id || t.maker == id then t.size else 0
  }

  /** Equal in every column but filled_amount and status. */
  predicate SameTerms(a: Order, b: Order) { a == b.(filled := a.filled, status := a.status) }

  predicate RowOk(o: Order, born: map<string, Order>, trades: seq<Trade>) {
    && o.orderId in born
    && var b := born[o.orderId];
       && Sound(b) && SameTerms(o, b)
       && o.filled == b.filled + TradeVolume(trades, o.orderId)
       && b.filled <= o.filled <= o.desired
       && (o.status == Filled <==> o.filled == o.desired && b.filled < b.desired)
  }

  predicate PairOk(c: Candidate, born: map<string, Order>) {
    && c.taker.orderId in born && SameTerms(c.taker, born[c.taker.orderId])
    && c.maker.orderId in born && SameTerms(c.maker, born[c.maker.orderId])
    && c.taker.side != c.maker.side && c.taker.market == c.maker.market && c.maker.createdAt <= c.taker.createdAt
  }

  predicate Proportional(o: Order, fill: int, units: int) { units * o.desired == fill * SignedAmount(o) }

  predicate Executable(c: Candidate, units: int, fill: int) {
    && fill > 0 && units > 0 && Crosses(c.taker, c.maker)
    && Proportional(c.taker, fill, units) && Proportional(c.maker, fill, units)
  }

  predicate PhaseOk(p: Phase, born: map<string, Order>) {
    p.Busy? ==>
      && PairOk(p.pair, born)
      && (p.stage.Submitting? ==> Executable(p.pair, p.stage.units, p.stage.fill))
      && (p.stage.Recording? ==> Executable(p.pair, p.stage.units, p.stage.fill))
  }

  predicate TradeOk(t: Trade, e: Execution, born: map<string, Order>) {
    && t.taker == e.taker && t.taker in born && t.maker == e.maker && t.maker in born
    && var c := Candidate(born[t.taker], born[t.maker]);
       && PairOk(c, born) && Executable(c, e.units, e.fill)
       && t.size == e.fill && t.market == c.taker.market && t.aggressor == c.taker.side && t.price == c.maker.limitPrice
  }

  predicate TradesOk(trades: seq<Trade>, settled: seq<Execution>, born: map<string, Order>) {
    |trades| == |settled| && forall j | 0 <= j < |trades| :: TradeOk(trades[j], settled[j], born)
  }

  predicate RowsOk(rows: seq<Order>, born: map<string, Order>, trades: seq<Trade>) {
    && UniqueKeys(rows)
    && (forall i | 0 <= i < |rows| :: RowOk(rows[i], born, trades))
    && forall id | id in born :: HasId(rows, id)
  }

  predicate Inv(s: State) {
    && RowsOk(s.db.rows, s.born, s.db.trades)
    && TradesOk(s.db.trades, s.settled, s.born)
    && forall k | 0 <= k < |s.matchers| :: PhaseOk(s.matchers[k], s.born)
  }

  /** Status moves of the order life cycle. */
  predicate StatusMove(a: Status, b: Status) {
    || a == b
    || (a == Active && b in {Matching, Cancelled, Expired})
    || (a == Matching && b in {Active, Filled})
  }

  /** Rows keep their place and columns; only statuses move, and none becomes filled. */
  predicate OnlyStatus(rows: seq<Order>, rows': seq<Order>) {
    && |rows'| == |rows|
    && forall i | 0 <= i < |rows| ::
         && rows'[i] == rows[i].(status := rows'[i].status)
         && StatusMove(rows[i].status, rows'[i].status)
         && (rows'[i].status == Filled ==> rows[i].status == Filled)
  }

  lemma OnlyStatusKeeps(rows: seq<Order>, rows': seq<Order>, born: map<string, Order>, trades: seq<Trade>)
    requires RowsOk(rows, born, trades) && OnlyStatus(rows, rows')
    ensures RowsOk(rows', born, trades)
  {
    forall id | id in born ensures HasId(rows', id) {
      var i :| 0 <= i < |rows| && rows[i].orderId == id;
      assert rows'[i].orderId == id;
    }
    forall i | 0 <= i < |rows'| ensures RowOk(rows'[i], born, trades) {
      assert RowOk(rows[i], born, trades);
    }
  }

  lemma FreshVolume(trades: seq<Trade>, settled: seq<Execution>, born: map<string, Order>, id: string)
    requires TradesOk(trades, settled, born) && id !in born
    ensures TradeVolume(trades, id) == 0
  {
    if trades != [] {
      var n := |trades| - 1;
      assert TradeOk(trades[n], settled[n], born);
      FreshVolume(trades[..n], settled[..n], born, id);
    }
  }

  lemma CreateRows(rows: seq<Order>, born: map<string, Order>, trades: seq<Trade>, o: Order)
    requires RowsOk(rows, born, trades) && Sound(o) && o.status == Active && !Clashes(rows, o)
    requires o.orderId !in born && TradeVolume(trades, o.orderId) == 0
    ensures RowsOk(rows + [o], born[o.orderId := o], trades)
  {
    var born', rows' := born[o.orderId := o], rows + [o];
    forall id | id in born' ensures HasId(rows', id) {
      if id == o.orderId {
        assert rows'[|rows|].orderId == id;
      } else {
        var i :| 0 <= i < |rows| && rows[i].orderId == id;
        assert rows'[i].orderId == id;
      }
    }
    forall i | 0 <= i < |rows'| ensures RowOk(rows'[i], born', trades) {
      if i < |rows| { assert RowOk(rows[i], born, trades); }
    }
  }

  lemma CreateHistory(s: State, o: Order)
    requires TradesOk(s.db.trades, s.settled, s.born) && o.orderId !in s.born
    requires forall k | 0 <= k < |s.matchers| :: PhaseOk(s.matchers[k], s.born)
    ensures TradesOk(s.db.trades, s.settled, s.born[o.orderId := o])
    ensures forall k | 0 <= k < |s.matchers| :: PhaseOk(s.matchers[k], s.born[o.orderId := o])
  {
    var born' := s.born[o.orderId := o];
    hide Executable;
    forall j | 0 <= j < |s.db.trades| ensures TradeOk(s.db.trades[j], s.settled[j], born') {
      assert TradeOk(s.db.trades[j], s.settled[j], s.born);
    }
    forall k | 0 <= k < |s.matchers| ensures PhaseOk(s.matchers[k], born') {
      assert PhaseOk(s.matchers[k], s.born);
    }
  }

  lemma CreateKeeps(s: State, o: Order)
    requires Inv(s) && Sound(o)
    ensures Inv(Apply(s, Create(o)))
  {
    hide RowOk, TradeOk, PhaseOk, TradeVolume;
    var o' := o.(status := Active);
    if !Clashes(s.db.rows, o) {
      assert forall i | 0 <= i < |s.db.rows| :: s.db.rows[i].orderId != o.orderId;
      assert !Clashes(s.db.rows, o');
      FreshVolume(s.db.trades, s.settled, s.born, o.orderId);
      CreateRows(s.db.rows, s.born, s.db.trades, o');
      CreateHistory(s, o');
    }
  }

  lemma PhaseKeeps(s: State, s': State, k: nat)
    requires Inv(s) && k < |s.matchers| && |s'.matchers| == |s.matchers|
    requires s'.db == s.db && s'.born == s.born && s'.settled == s.settled
    requires s'.matchers == s.matchers[k := s'.matchers[k]] && PhaseOk(s'.matchers[k], s.born)
    ensures Inv(s')
  {
  }

  lemma RowsKeep(s: State, s': State)
    requires Inv(s) && OnlyStatus(s.db.rows, s'.db.rows) && s'.db.trades == s.db.trades
    requires s'.born == s.born && s'.settled == s.settled && s'.matchers == s.matchers
    ensures Inv(s')
  {
    OnlyStatusKeeps(s.db.rows, s'.db.rows, s.born, s.db.trades);
  }

  lemma ChosenPairOk(rows: seq<Order>, born: map<string, Order>, trades: seq<Trade>, market: Market, b: nat, a: nat)
    requires RowsOk(rows, born, trades) && IsBest(rows, market, Buy, b) && IsBest(rows, market, Sell, a)
    ensures PairOk(ChooseTakerMaker(rows[b], rows[a]), born)
  {
    assert RowOk(rows[b], born, trades) && RowOk(rows[a], born, trades);
  }

  lemma AcquireOnlyStatus(rows: seq<Order>, now: int, bid: Option<nat>, ask: Option<nat>)
    requires InRange(bid, rows) && InRange(ask, rows)
    ensures OnlyStatus(rows, ExpireRows(rows, now))
    ensures OnlyStatus(ExpireRows(rows, now), AcquireTx(rows, now, bid, ask).0)
  {
  }

  lemma AcquireKeeps(s: State, k: nat, market: Market, now: int, bid: Option<nat>, ask: Option<nat>)
    requires Inv(s) && Enabled(s, Acquire(k, market, now, bid, ask))
    ensures Inv(Apply(s, Acquire(k, market, now, bid, ask)))
  {
    var live := ExpireRows(s.db.rows, now);
    var (rows, pair) := AcquireTx(s.db.rows, now, bid, ask);
    var s1, s2 := s.(db := s.db.(rows := live)), s.(db := s.db.(rows := rows));
    var s' := Apply(s, Acquire(k, market, now, bid, ask));
    assert pair.Some? ==> pair.value == ChooseTakerMaker(live[bid.value], live[ask.value]);
    hide RowsOk, TradesOk, OnlyStatus, ExpireRows, AcquireTx, PairOk, IsBest, ChooseTakerMaker;
    AcquireOnlyStatus(s.db.rows, now, bid, ask);
    RowsKeep(s, s1);
    RowsKeep(s1, s2);
    if pair.Some? {
      ChosenPairOk(live, s.born, s.db.trades, market, bid.value, ask.value);
    }
    PhaseKeeps(s2, s', k);
  }

  lemma CheckKeeps(s: State, k: nat)
    requires Inv(s) && Enabled(s, Check(k))
    ensures Inv(Apply(s, Check(k)))
  {
    var p := s.matchers[k];
    assert PhaseOk(p, s.born);
    hide Decide;
    if Decide(p.pair, p.stage.now).Submit? {
      SubmitMeans(p.pair, p.stage.now);
    }
    PhaseKeeps(s, Apply(s, Check(k)), k);
  }

  lemma UnreserveKeeps(s: State, c: Candidate)
    requires Inv(s)
    ensures Inv(Unreserve(s, c))
  {
    RowsKeep(s, Unreserve(s, c));
  }

  lemma TradeVolumeAppend(trades: seq<Trade>, t: Trade, id: string)
    ensures TradeVolume(trades + [t], id) == TradeVolume(trades, id) + if t.taker == id
            || t.maker == id then t.size else 0
  {
    assert (trades + [t])[..|trades|] == trades;
  }

  /** What a successful recording changes. */
  lemma RecordEffect(s: State, k: nat) returns (t: nat, m: nat)
    requires Inv(s) && Enabled(s, Record(k, true)) && Apply(s, Record(k, true)).matchers[k].Idle?
    ensures t < |s.db.rows| && m < |s.db.rows| && t != m
    ensures var (c, fill) := (s.matchers[k].pair, s.matchers[k].stage.fill);
            && s.db.rows[t].orderId == c.taker.orderId && s.db.rows[m].orderId == c.maker.orderId
            && s.db.rows[t].status == Matching && s.db.rows[m].status == Matching
            && s.db.rows[t].filled + fill <= s.db.rows[t].desired && s.db.rows[m].filled + fill <= s.db.rows[m].desired
            && Apply(s, Record(k, true)).db == Db(
                 s.db.rows[t := FilledRow(s.db.rows[t], fill)][m := FilledRow(s.db.rows[m], fill)],
                 s.db.trades + [Trade(s.db.rows[t].market, c.maker.limitPrice, fill, s.db.rows[t].side,
                   c.taker.orderId, c.maker.orderId)])
  {
    var (c, fill) := (s.matchers[k].pair, s.matchers[k].stage.fill);
    hide FinalizeTx;
    t, m := FinalizeRows(s.db, c.taker.orderId, c.maker.orderId, c.maker.limitPrice, fill);
    FinalizeIff(s.db, t, m, c.maker.limitPrice, fill);
    assert PhaseOk(s.matchers[k], s.born);
    assert RowOk(s.db.rows[m], s.born, s.db.trades);
  }

  lemma FillKeepsRow(o: Order, born: map<string, Order>, trades: seq<Trade>, t: Trade)
    requires RowOk(o, born, trades) && t.size > 0 && (t.taker == o.orderId || t.maker == o.orderId)
    requires o.filled + t.size <= o.desired
    ensures RowOk(FilledRow(o, t.size), born, trades + [t])
  {
    TradeVolumeAppend(trades, t, o.orderId);
  }

  lemma OtherKeepsRow(o: Order, born: map<string, Order>, trades: seq<Trade>, t: Trade)
    requires RowOk(o, born, trades) && t.taker != o.orderId && t.maker != o.orderId
    ensures RowOk(o, born, trades + [t])
  {
    TradeVolumeAppend(trades, t, o.orderId);
  }

  predicate SameKeys(rows: seq<Order>, rows': seq<Order>) {
    |rows'| == |rows| && forall i | 0 <= i < |rows| ::
      rows'[i].orderId == rows[i].orderId && rows'[i].owner == rows[i].owner && rows'[i].nonce == rows[i].nonce
  }

  lemma SameKeysKeep(rows: seq<Order>, rows': seq<Order>, id: string)
    requires UniqueKeys(rows) && SameKeys(rows, rows')
    ensures UniqueKeys(rows')
    ensures HasId(rows, id) ==> HasId(rows', id)
  {
    if HasId(rows, id) {
      var i :| 0 <= i < |rows| && rows[i].orderId == id;
      assert rows'[i].orderId == id;
    }
  }

  lemma RecordRows(rows: seq<Order>, born: map<string, Order>, trades: seq<Trade>, t: nat, m: nat, trade: Trade)
    requires RowsOk(rows, born, trades) && t < |rows| && m < |rows| && t != m && trade.size > 0
    requires rows[t].orderId == trade.taker && rows[m].orderId == trade.maker
    requires rows[t].filled + trade.size <= rows[t].desired && rows[m].filled + trade.size <= rows[m].desired
    ensures RowsOk(rows[t := FilledRow(rows[t], trade.size)][m := FilledRow(rows[m], trade.size)], born,
            trades + [trade])
  {
    var rows' := rows[t := FilledRow(rows[t], trade.size)][m := FilledRow(rows[m], trade.size)];
    assert SameKeys(rows, rows');
    hide RowOk, SameKeys;
    SameKeysKeep(rows, rows', "");
    forall i | 0 <= i < |rows'| ensures RowOk(rows'[i], born, trades + [trade]) {
      assert RowOk(rows[i], born, trades);
      if i == t || i == m {
        FillKeepsRow(rows[i], born, trades, trade);
      } else {
        OtherKeepsRow(rows[i], born, trades, trade);
      }
    }
    forall id | id in born ensures HasId(rows', id) {
      SameKeysKeep(rows, rows', id);
    }
  }

  lemma RecordTradeOk(s: State, k: nat, t: nat, m: nat, trade: Trade)
    requires Inv(s) && Enabled(s, Record(k, true)) && t < |s.db.rows| && m < |s.db.rows|
    requires var p := s.matchers[k];
             && s.db.rows[t].orderId == p.pair.taker.orderId && s.db.rows[m].orderId == p.pair.maker.orderId
             && trade == Trade(s.db.rows[t].market, p.pair.maker.limitPrice, p.stage.fill, s.db.rows[t].side,
                               p.pair.taker.orderId, p.pair.maker.orderId)
    ensures TradeOk(trade, MatchOf(s.matchers[k].pair, s.matchers[k].stage.units, s.matchers[k].stage.fill), s.born)
  {
    assert PhaseOk(s.matchers[k], s.born);
    assert RowOk(s.db.rows[t], s.born, s.db.trades);
    hide TradeVolume, SignedAmount;
  }

  lemma RecordTrades(s: State, trade: Trade, e: Execution)
    requires TradesOk(s.db.trades, s.settled, s.born) && TradeOk(trade, e, s.born)
    ensures TradesOk(s.db.trades + [trade], s.settled + [e], s.born)
  {
    hide TradeOk;
  }

  lemma RecordKeeps(s: State, k: nat, dbOk: bool)
    requires Inv(s) && Enabled(s, Record(k, dbOk))
    ensures Inv(Apply(s, Record(k, dbOk)))
  {
    var s' := Apply(s, Record(k, dbOk));
    var (c, units, fill) := (s.matchers[k].pair, s.matchers[k].stage.units, s.matchers[k].stage.fill);
    assert PhaseOk(s.matchers[k], s.born);
    assert dbOk || s'.matchers[k].Busy?;
    hide RowOk, TradesOk, RowsOk, FinalizeTx, Executable, PairOk, RemoveOne;
    if s'.matchers[k].Idle? {
      var t, m := RecordEffect(s, k);
      var e := MatchOf(c, units, fill);
      var trade := Trade(s.db.rows[t].market, c.maker.limitPrice, fill, s.db.rows[t].side, c.taker.orderId,
          c.maker.orderId);
      RecordTradeOk(s, k, t, m, trade);
      assert s'.settled == s.settled + [e];
      RecordTrades(s, trade, e);
      assert fill > 0 by { ExecutableFill(s.matchers[k], s.born); }
      RecordRows(s.db.rows, s.born, s.db.trades, t, m, trade);
    } else {
      PhaseKeeps(s, s', k);
    }
  }

  lemma ExecutableFill(p: Phase, born: map<string, Order>)
    requires PhaseOk(p, born) && p.Busy? && p.stage.Recording?
    ensures p.stage.fill > 0 && p.stage.units > 0
  {
  }

  lemma CancelKeeps(s: State, owner: string, nonce: real)
    requires Inv(s)
    ensures Inv(Apply(s, Cancel(owner, nonce)))
  {
    hide RowsOk, TradesOk, PhaseOk;
    RowsKeep(s, Apply(s, Cancel(owner, nonce)));
  }

  lemma ExpireKeeps(s: State, now: int)
    requires Inv(s)
    ensures Inv(Apply(s, Expire(now)))
  {
    hide RowsOk, TradesOk, PhaseOk;
    RowsKeep(s, Apply(s, Expire(now)));
  }

  lemma SendKeeps(s: State, k: nat, transport: Transport)
    requires Inv(s) && Enabled(s, Send(k, transport))
    ensures Inv(Apply(s, Send(k, transport)))
  {
    assert PhaseOk(s.matchers[k], s.born);
    hide RowsOk, TradesOk, Executable, PairOk, Refused;
    PhaseKeeps(s, Apply(s, Send(k, transport)), k);
  }

  lemma ReleaseKeeps(s: State, k: nat, dbOk: bool, p: Phase)
    requires Inv(s) && k < |s.matchers| && s.matchers[k].Busy? && PhaseOk(p, s.born)
    ensures Inv(WithPhase(if dbOk then Unreserve(s, s.matchers[k].pair) else s, k, p))
  {
    hide RowsOk, TradesOk, PhaseOk, Unreserve;
    UnreserveKeeps(s, s.matchers[k].pair);
    var s1 := if dbOk then Unreserve(s, s.matchers[k].pair) else s;
    UnreserveFrame(s, s.matchers[k].pair);
    PhaseKeeps(s1, WithPhase(s1, k, p), k);
  }

  lemma UnreserveFrame(s: State, c: Candidate)
    ensures var s1 := Unreserve(s, c);
            s1 == s.(db := s1.db) && s1.db.trades == s.db.trades
  {
  }

  lemma UnheardKeeps(s: State, k: nat)
    requires Inv(s) && Enabled(s, RecordUnheard(k))
    ensures Inv(Apply(s, RecordUnheard(k)))
  {
    hide Inv, Apply, PhaseOk;
    RecordKeeps(s, k, true);
    UnheardIs(s, k);
    ReleasingOk(s, k);
    PhaseSwap(Apply(s, Record(k, true)), k, s.matchers[k].(stage := Releasing));
  }

  lemma UnheardIs(s: State, k: nat)
    requires Enabled(s, RecordUnheard(k))
    ensures Enabled(s, Record(k, true)) && k < |Apply(s, Record(k, true)).matchers|
            && Apply(s, Record(k, true)).born == s.born
    ensures Apply(s, RecordUnheard(k)) == WithPhase(Apply(s, Record(k, true)), k, s.matchers[k].(stage := Releasing))
  {
    hide FinalizeTx, RemoveOne;
  }

  lemma ReleasingOk(s: State, k: nat)
    requires Inv(s) && k < |s.matchers| && s.matchers[k].Busy?
    ensures PhaseOk(s.matchers[k].(stage := Releasing), s.born)
  {
    hide RowsOk, TradesOk, PairOk, Executable;
    assert PhaseOk(s.matchers[k], s.born);
  }

  lemma PhaseSwap(s: State, k: nat, p: Phase)
    requires Inv(s) && k < |s.matchers| && PhaseOk(p, s.born)
    ensures Inv(WithPhase(s, k, p))
  {
    hide RowsOk, TradesOk, PhaseOk;
    PhaseKeeps(s, WithPhase(s, k, p), k);
  }

  lemma CrashKeeps(s: State, k: nat)
    requires Inv(s) && Enabled(s, Crash(k))
    ensures Inv(Apply(s, Crash(k)))
  {
    hide RowsOk, TradesOk;
    PhaseKeeps(s, Apply(s, Crash(k)), k);
  }

  lemma StepKeepsInv(s: State, step: Step)
    requires Inv(s) && Enabled(s, step)
    ensures Inv(Apply(s, step))
  {
    hide RowsOk, TradesOk;
    match step
    case Create(o) => CreateKeeps(s, o);
    case Cancel(owner, nonce) => CancelKeeps(s, owner, nonce);
    case Expire(now) => ExpireKeeps(s, now);
    case Acquire(k, market, now, bid, ask) => AcquireKeeps(s, k, market, now, bid, ask);
    case Check(k) => CheckKeeps(s, k);
    case Send(k, transport) => SendKeeps(s, k, transport);
    case Record(k, dbOk) => RecordKeeps(s, k, dbOk);
    case RecordUnheard(k) => UnheardKeeps(s, k);
    case Fail(k, dbOk) =>
      assert PhaseOk(s.matchers[k], s.born);
      ReleaseKeeps(s, k, dbOk, s.matchers[k].(stage := Releasing));
    case LetGo(k, dbOk) =>
      ReleaseKeeps(s, k, dbOk, Idle);
    case Crash(k) => CrashKeeps(s, k);
  }

  lemma {:induction false} RunKeepsInv(s: State, steps: seq<Step>, s': State)
    requires Inv(s) && Run(s, steps, s')
    ensures Inv(s')
    decreases |steps|
  {
    if steps != [] {
      StepKeepsInv(s, steps[0]);
      hide Apply, Enabled, Inv;
      RunKeepsInv(Apply(s, steps[0]), steps[1..], s');
    }
  }

  lemma InitialInv(n: nat)
    ensures Inv(Initial(n))
  {
  }
}

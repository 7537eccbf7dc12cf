/** Why the protocol's guarantees need what they assume. Exactly-once recording asks for calm from
    the reservation on, not only from the submission on; and a reservation is safe with one matcher
    only, because reservations name no owner and a failed match is released twice. */
module Counterexamples {
  import opened DecimalText
  import opened ExactlyOnce
  import opened MatchRules
  import opened Orders
  import opened Protocol
  import opened Solo
  import opened Ticks
  import opened TradeData
  import opened Wrappers

  function Asset(): (a: seq<Byte>)
    ensures |a| == 20
  {
    seq(20, _ => 0)
  }

  function Spot(): Market { Market("0x" + HexEncode(Asset()), "0") }

  function TenAt(id: string, side: Side, ticks: int, createdAt: int): Order
    requires 0 < ticks < 128
  {
    Fits(ticks);
    Order(id, "owner", createdAt as real, side, Spot(), 10, 0, "1", ticks, 100,
          EncodeTradeData(Asset(), 0, ticks, 10, 0, 0, side.Buy?), Active, createdAt)
  }

  lemma Fits(ticks: int)
    requires 0 < ticks < 128
    ensures FitsInt256(ticks) && FitsInt256(10)
  {
    hide Pow256;
    Arith.MulMono(1, Pow256(31), 128);
  }

  lemma TenDecodes(id: string, side: Side, ticks: int, createdAt: int)
    requires 0 < ticks < 128
    ensures var o := TenAt(id, side, ticks, createdAt);
            && DecodeTradeData(o.actionData) == Some(TradeAction("0x" + HexEncode(Asset()), 0, ticks, 10, side.Buy?))
            && SignedAmount(o) == 10
            && ActionMatches(o, DecodeTradeData(o.actionData).value)
  {
    Fits(ticks);
    assert TrimSpace("0") == "0" && NatText(0) == "0";
    hide DecodeTradeData, EncodeTradeData, HexEncode, Asset, FitsInt256, Lower, ParseActionTradeData, Pow256;
    assert 0 < Pow256(32);
    DecodeInvertsEncode(Asset(), 0, ticks, 10, 0, 0, side.Buy?);
  }

  /** All but the action data. */
  predicate IsTen(o: Order, id: string, side: Side, ticks: int, createdAt: int) {
    && o.orderId == id && o.owner == "owner" && o.nonce == createdAt as real && o.side == side && o.market == Spot()
    && o.desired == 10 && o.filled == 0 && o.limitPrice == "1" && o.ticks == ticks && o.expiry == 100
    && o.status == Active && o.createdAt == createdAt
  }

  lemma TenIs(id: string, side: Side, ticks: int, createdAt: int)
    requires 0 < ticks < 128
    ensures IsTen(TenAt(id, side, ticks, createdAt), id, side, ticks, createdAt)
  {
    hide EncodeTradeData, Spot, FitsInt256;
  }

  /** A bid and an ask of ten units that convert at scale one. */
  ghost predicate Pair(bid: Order, ask: Order) {
    && bid.side.Buy? && ask.side.Sell? && bid.createdAt < ask.createdAt && ask.ticks <= bid.ticks
    && bid.orderId != ask.orderId && bid.desired == ask.desired == 10 && bid.filled == ask.filled == 0
    && 0 < ask.ticks && bid.expiry == ask.expiry == 100 && bid.market == ask.market
    && SignedAmount(bid) == SignedAmount(ask) == 10 && Convertible(Candidate(ask, bid), 1, 1)
  }

  lemma TenConverts(bidId: string, askId: string, bidTicks: int, askTicks: int, early: int, late: int)
    requires 0 < askTicks <= bidTicks < 128 && bidId != askId && early < late
    ensures Pair(TenAt(bidId, Buy, bidTicks, early), TenAt(askId, Sell, askTicks, late))
  {
    hide DecodeTradeData, EncodeTradeData, ActionMatches, TenAt, Spot, SignedAmount;
    TenIs(bidId, Buy, bidTicks, early);
    TenIs(askId, Sell, askTicks, late);
    TenDecodes(bidId, Buy, bidTicks, early);
    TenDecodes(askId, Sell, askTicks, late);
  }

  lemma PairSubmits(bid: Order, ask: Order)
    requires Pair(bid, ask)
    ensures ChooseTakerMaker(bid, ask) == Candidate(ask, bid)
    ensures Decide(Candidate(ask, bid), 0) == Submit(Units(bid.ticks, 10), 10)
  {
    hide Convertible, ComputeExecutionUnits, SignedAmount, StringAfter;
    ConversionIff(Candidate(ask, bid), 1, 1);
  }

  /** The three orders: a crossing pair, and a later ask at a better price. */
  ghost predicate Trio(b: Order, a: Order, r: Order) {
    && IsTen(b, "b", Buy, 5, 1) && IsTen(a, "a", Sell, 5, 2) && IsTen(r, "r", Sell, 4, 3)
    && Pair(b, a) && Pair(b, r)
  }

  lemma SomeTrio() returns (b: Order, a: Order, r: Order)
    ensures Trio(b, a, r)
  {
    hide TenAt, Pair, IsTen;
    b, a, r := TenAt("b", Buy, 5, 1), TenAt("a", Sell, 5, 2), TenAt("r", Sell, 4, 3);
    TenIs("b", Buy, 5, 1);
    TenIs("a", Sell, 5, 2);
    TenIs("r", Sell, 4, 3);
    TenConverts("b", "a", 5, 5, 1, 2);
    TenConverts("b", "r", 5, 4, 1, 3);
  }

  function Put(s: State, o: Order): State {
    s.(db := s.db.(rows := s.db.rows + [o]), born := s.born[o.orderId := o])
  }

  lemma CreateForm(s: State, o: Order)
    requires Sound(o) && o.status == Active && !Clashes(s.db.rows, o)
    ensures Enabled(s, Create(o)) && Apply(s, Create(o)) == Put(s, o)
  {
    assert o.(status := Active) == o;
    hide Clashes;
  }

  lemma TwoRows(b: Order, a: Order)
    requires IsTen(b, "b", Buy, 5, 1) && IsTen(a, "a", Sell, 5, 2)
    ensures !Clashes([], b) && !Clashes([b], a) && Sound(b) && Sound(a) && [] + [b] == [b] && [b] + [a] == [b, a]
    ensures ExpireRows([b, a], 0) == [b, a]
    ensures IsBest([b, a], Spot(), Buy, 0) && IsBest([b, a], Spot(), Sell, 1)
    ensures a.orderId == "a" && b.orderId == "b"
    ensures ReserveRows([b, a], {"a", "b"}) == [b.(status := Matching), a.(status := Matching)]
  {
    hide Spot;
  }

  lemma AcquireBy(s: State, k: nat, b: Order, a: Order)
    requires IsTen(b, "b", Buy, 5, 1) && IsTen(a, "a", Sell, 5, 2) && Pair(b, a)
    requires s.db.rows == [b, a] && k < |s.matchers| && s.matchers[k] == Idle
    ensures var step := Acquire(k, Spot(), 0, Some(0), Some(1));
            Enabled(s, step) && Apply(s, step) ==
              WithPhase(s.(db := s.db.(rows := [b.(status := Matching), a.(status := Matching)])), k,
                Busy(Candidate(a, b), Checking(0)))
  {
    hide Pair, Decide, ChooseTakerMaker, Spot, IsBest, ReserveRows, ExpireRows, IsTen, Enabled, Apply, WithPhase;
    TwoRows(b, a);
    PairSubmits(b, a);
    AcquireHeads(s, k, Spot(), 0, 0, 1, [b, a], Candidate(a, b));
  }

  /** An order with a time of its own arrives calmly where nothing is reserved or unrecorded. */
  lemma FreshIsCalm(s: State, o: Order)
    requires o.filled == 0 && s.unrecorded == [] && (s.matchers == [] || s.matchers[0].Idle?)
    requires forall i | 0 <= i < |s.db.rows| :: s.db.rows[i].createdAt != o.createdAt
    ensures Calm(s, Create(o))
  {
  }

  /** Two orders are created. */
  lemma Open(n: nat, b: Order, a: Order) returns (s: State)
    requires Sound(b) && Sound(a) && b.status == Active && a.status == Active && !Clashes([], b) && !Clashes([b], a)
    requires b.filled == a.filled == 0 && b.createdAt != a.createdAt
    ensures Run(Initial(n), [Create(b), Create(a)], s) && CalmRun(Initial(n), [Create(b), Create(a)], s)
    ensures s.db == Db([b, a], []) && s.matchers == Initial(n).matchers
            && s.settled == s.executions == s.unrecorded == []
  {
    var s0 := Initial(n);
    var s1 := Put(s0, b);
    s := Put(s1, a);
    assert [] + [b] == [b];
    assert s0.matchers == [] || s0.matchers[0].Idle?;
    FreshIsCalm(s0, b);
    FreshIsCalm(s1, a);
    hide Clashes, Run, Enabled, Apply, Sound, Calm, CalmRun;
    CreateForm(s0, b);
    CreateForm(s1, a);
    assert [Create(b)] + [Create(a)] == [Create(b), Create(a)];
    RunNone(s0);
    RunAppend(s0, [], s0, Create(b));
    assert [] + [Create(b)] == [Create(b)];
    RunAppend(s0, [Create(b)], s1, Create(a));
    CalmOne(s0, Create(b));
    CalmOne(s1, Create(a));
    CalmConcat(s0, [Create(b)], s1, [Create(a)], s);
  }

  /** Bid and ask are created and reserved. */
  lemma Reserve(b: Order, a: Order, r: Order) returns (steps: seq<Step>, s: State)
    requires Trio(b, a, r)
    ensures CalmRun(Initial(1), steps, s) && s.matchers == [Busy(Candidate(a, b), Checking(0))]
    ensures s.db == Db([b.(status := Matching), a.(status := Matching)], []) && s.executions == s.unrecorded == []
  {
    hide Trio, Clashes, Run, Sound, Spot, Initial, Enabled, Apply, CalmRun;
    TrioOpens(b, a, r);
    StartIdle();
    var s2 := Open(1, b, a);
    var first := Acquire(0, Spot(), 0, Some(0), Some(1));
    s := ReserveOpened(s2, b, a, r);
    steps := [Create(b), Create(a)] + [first];
    NothingPending(s2, first);
    CalmOne(s2, first);
    CalmConcat(Initial(1), [Create(b), Create(a)], s2, [first], s);
  }

  lemma NothingPending(s: State, step: Step)
    requires s.unrecorded == [] && step.Acquire?
    ensures Calm(s, step)
  {
  }

  lemma ReserveOpened(s: State, b: Order, a: Order, r: Order) returns (s': State)
    requires Trio(b, a, r) && s.db == Db([b, a], []) && s.matchers == [Idle]
    ensures Enabled(s, Acquire(0, Spot(), 0, Some(0), Some(1)))
            && s' == Apply(s, Acquire(0, Spot(), 0, Some(0), Some(1)))
    ensures s'.matchers == [Busy(Candidate(a, b), Checking(0))] && s'.executions == s.executions
            && s'.unrecorded == s.unrecorded
    ensures s'.db == Db([b.(status := Matching), a.(status := Matching)], [])
  {
    hide Pair, IsTen, Spot, Enabled, Apply;
    AcquireBy(s, 0, b, a);
    s' := Apply(s, Acquire(0, Spot(), 0, Some(0), Some(1)));
  }

  lemma StartIdle()
    ensures Initial(1).matchers == [Idle]
  {
  }

  lemma TrioOpens(b: Order, a: Order, r: Order)
    requires Trio(b, a, r)
    ensures Sound(b) && Sound(a) && b.status == Active && a.status == Active && !Clashes([], b) && !Clashes([b], a)
    ensures b.filled == a.filled == 0 && b.createdAt != a.createdAt
  {
    hide Pair, IsBest, ReserveRows, ExpireRows, Spot;
    TwoRows(b, a);
  }

  lemma ReleaseThree(b: Order, a: Order, r: Order)
    requires Trio(b, a, r)
    ensures ReleaseRows([b.(status := Matching), a.(status := Matching), r], {"a", "b"}) == [b, a, r]
    ensures ReleaseRows([b, a, r], {"a", "b"}) == [b, a, r]
  {
    hide Pair, Spot;
  }

  /** The submission is carried out, its reply is lost, and the pair is given back. */
  lemma LoseReply(s: State, b: Order, a: Order, r: Order) returns (steps: seq<Step>, s': State)
    requires Trio(b, a, r) && s.matchers == [Busy(Candidate(a, b), Checking(0))] && s.executions == s.unrecorded == []
    requires s.db == Db([b.(status := Matching), a.(status := Matching), r], [])
    ensures steps == [Check(0), Send(0, ReplyLost), Fail(0, true), LetGo(0, true)] && Run(s, steps, s')
    ensures s'.matchers == [Idle] && s'.db == Db([b, a, r], [])
            && s'.executions == s'.unrecorded == [Execution("a", "b", 10, 10)]
  {
    var (c, e) := (Candidate(a, b), Execution("a", "b", 10, 10));
    FirstAccepted(b, a, r);
    ReleaseThree(b, a, r);
    hide Pair, Trio, Decide, ReleaseRows, Refused, Run, Spot, Apply, Enabled;
    CheckSubmits(s, c, 0, Units(b.ticks, 10), 10);
    var s1 := s.(matchers := [Busy(c, Submitting(10, 10))]);
    SendLost(s1, c, 10, 10);
    var s2 := s1.(executions := [] + [e], unrecorded := [] + [e], matchers := [Busy(c, Failing)]);
    FailThenLetGo(s2, c);
    var s3 := Unreserve(s2, c).(matchers := [Busy(c, Releasing)]);
    s' := Apply(s3, LetGo(0, true));
    steps := [Check(0), Send(0, ReplyLost), Fail(0, true), LetGo(0, true)];
    FourSteps(s, Check(0), s1, Send(0, ReplyLost), s2, Fail(0, true), s3, LetGo(0, true), s');
  }

  lemma FirstAccepted(b: Order, a: Order, r: Order)
    requires Trio(b, a, r)
    ensures !Refused([], Candidate(a, b), 10) && a.orderId == "a" && b.orderId == "b"
    ensures Decide(Candidate(a, b), 0) == Submit(Units(b.ticks, 10), 10)
  {
    PairSubmits(b, a);
    hide Decide, Spot;
  }

  lemma ThreeRows(b: Order, a: Order, r: Order)
    requires Trio(b, a, r)
    ensures ExpireRows([b, a, r], 0) == [b, a, r]
    ensures IsBest([b, a, r], Spot(), Buy, 0) && IsBest([b, a, r], Spot(), Sell, 2)
    ensures r.orderId == "r" && b.orderId == "b"
    ensures ReserveRows([b, a, r], {"r", "b"}) == [b.(status := Matching), a, r.(status := Matching)]
  {
    hide Spot, Pair;
  }

  lemma AcquireThree(s: State, b: Order, a: Order, r: Order)
    requires Trio(b, a, r) && s.db.rows == [b, a, r] && s.matchers == [Idle]
    ensures var step := Acquire(0, Spot(), 0, Some(0), Some(2));
            Enabled(s, step) && Apply(s, step) ==
              s.(db := s.db.(rows := [b.(status := Matching), a, r.(status := Matching)]),
                matchers := [Busy(Candidate(r, b), Checking(0))])
  {
    hide Pair, IsTen, Decide, ChooseTakerMaker, Spot, IsBest, ReserveRows, ExpireRows, Enabled, Apply;
    ThreeRows(b, a, r);
    PairSubmits(b, r);
    AcquireHeads(s, 0, Spot(), 0, 0, 2, [b, a, r], Candidate(r, b));
  }

  lemma FinalizeThree(b: Order, a: Order, r: Order)
    requires Trio(b, a, r)
    ensures var f := FinalizeTx(Db([b.(status := Matching), a, r.(status := Matching)], []), "r", "b", "1", 10);
            f.Ok? && |f.value.trades| == 1 && f.value.trades[0].taker == "r" && f.value.trades[0].maker == "b"
  {
    hide Pair, Spot, FinalizeTx;
    FinalizeIff(Db([b.(status := Matching), a, r.(status := Matching)], []), 2, 0, "1", 10);
  }

  /** The next tick pairs the bid with the rival, is refused for the bid's used-up cap, and takes
      the refusal for its own match. */
  lemma RecordWrongTrade(s: State, b: Order, a: Order, r: Order) returns (steps: seq<Step>, s': State)
    requires Trio(b, a, r) && s.matchers == [Idle] && s.db == Db([b, a, r], [])
             && s.executions == [Execution("a", "b", 10, 10)]
    ensures CalmRun(s, steps, s')
    ensures s'.executions == s.executions && |s'.db.trades| == 1 && s'.db.trades[0].taker == "r"
            && s'.db.trades[0].maker == "b"
    ensures Execution("r", "b", 10, 10) in s'.settled
  {
    hide Pair, Trio, Decide, FinalizeTx, Refused, Run, Spot, Apply, Enabled, RemoveOne, CalmRun, Calm;
    var (c, first) := (Candidate(r, b), Acquire(0, Spot(), 0, Some(0), Some(2)));
    RivalRefused(s.executions, b, a, r);
    ThreeCalm(s, b, a, r);
    AcquireThree(s, b, a, r);
    FinalizeThree(b, a, r);
    var s1 := Apply(s, first);
    CheckSubmits(s1, c, 0, Units(b.ticks, 10), 10);
    var s2 := Apply(s1, Check(0));
    SendRefused(s2, c, 10, 10);
    var s3 := Apply(s2, Send(0, Delivered));
    RecordSucceeds(s3, c, 10, 10);
    s' := Apply(s3, Record(0, true));
    ThreeSteps(s1, Check(0), s2, Send(0, Delivered), s3, Record(0, true), s');
    CalmInside(s1, [Check(0), Send(0, Delivered), Record(0, true)], s');
    CalmOne(s, first);
    CalmConcat(s, [first], s1, [Check(0), Send(0, Delivered), Record(0, true)], s');
    steps := [first] + [Check(0), Send(0, Delivered), Record(0, true)];
  }

  lemma RivalRefused(es: seq<Execution>, b: Order, a: Order, r: Order)
    requires Trio(b, a, r) && es == [Execution("a", "b", 10, 10)]
    ensures Refused(es, Candidate(r, b), 10) && r.orderId == "r" && b.orderId == "b" && b.limitPrice == "1"
    ensures Decide(Candidate(r, b), 0) == Submit(Units(b.ticks, 10), 10)
  {
    UsedTen();
    PairSubmits(b, r);
    hide Decide, Spot;
  }

  lemma ThreeCalm(s: State, b: Order, a: Order, r: Order)
    requires Trio(b, a, r) && s.db.rows == [b, a, r]
    ensures Calm(s, Acquire(0, Spot(), 0, Some(0), Some(2)))
  {
    hide Pair, Spot, NamedBy;
  }

  lemma UsedTen()
    ensures Used([Execution("a", "b", 10, 10)], "b") == 10
  {
    assert [Execution("a", "b", 10, 10)][..0] == [];
  }

  /** A run with one matcher that is calm but for one arrival, of an unfilled order at a time of its
      own between the reservation and the submission, and that ends with a trade row whose match
      never happened. */
  lemma ArrivalBeforeSubmission() returns (before: seq<Step>, mid: State, late: Order, after: seq<Step>, s: State)
    ensures CalmRun(Initial(1), before, mid) && Enabled(mid, Create(late))
            && CalmRun(Apply(mid, Create(late)), after, s)
    ensures |mid.matchers| == 1 && mid.matchers[0].Busy? && mid.matchers[0].stage.Checking? && mid.executions == []
    ensures late.filled == 0 && !Calm(mid, Create(late))
    ensures forall i | 0 <= i < |mid.db.rows| :: mid.db.rows[i].createdAt != late.createdAt
    ensures s.db.trades != [] && forall i | 0 <= i < |s.executions| :: s.executions[i].taker != s.db.trades[0].taker
    ensures multiset(s.executions) != multiset(s.settled) + multiset(s.unrecorded)
  {
    var b, a, r := SomeTrio();
    hide Pair, Spot, Run, Apply, Enabled, CalmRun, Calm;
    before, mid := Reserve(b, a, r);
    late := r;
    NotCalm(mid, b, a, r);
    CreateForm(mid, r);
    var s1 := Put(mid, r);
    assert s1.db.rows == [b.(status := Matching), a.(status := Matching), r];
    var first, s2 := LoseReply(s1, b, a, r);
    CalmInside(s1, first, s2);
    var second;
    second, s := RecordWrongTrade(s2, b, a, r);
    after := first + second;
    CalmConcat(s1, first, s2, second, s);
    Unbacked(s, Execution("a", "b", 10, 10), Execution("r", "b", 10, 10));
  }

  lemma Unbacked(s: State, e: Execution, f: Execution)
    requires s.executions == [e] && f in s.settled && e != f
    ensures multiset(s.executions) != multiset(s.settled) + multiset(s.unrecorded)
  {
    assert f in multiset(s.settled) && f !in multiset([e]);
  }

  lemma NotCalm(s: State, b: Order, a: Order, r: Order)
    requires Trio(b, a, r) && s.matchers == [Busy(Candidate(a, b), Checking(0))]
    requires s.db.rows == [b.(status := Matching), a.(status := Matching)]
    ensures !Calm(s, Create(r)) && Sound(r) && r.status == Active && !Clashes(s.db.rows, r) && r.filled == 0
    ensures forall i | 0 <= i < |s.db.rows| :: s.db.rows[i].createdAt != r.createdAt
  {
    hide Pair, Spot;
    assert Guarded(s, s.db.rows[1].orderId);
    assert Ahead(r, s.db.rows[1]) && SameBook(s.db.rows[1], r);
  }

  // ---------------------------------------------------------------- two matchers

  lemma CheckBy(s: State, k: nat, b: Order, a: Order)
    requires Pair(b, a) && k < |s.matchers| && s.matchers[k] == Busy(Candidate(a, b), Checking(0))
    ensures Enabled(s, Check(k)) && Apply(s, Check(k)) == WithPhase(s, k, Busy(Candidate(a, b), Submitting(10, 10)))
  {
    PairSubmits(b, a);
    hide Pair, Decide;
  }

  lemma SendBy(s: State, k: nat, c: Candidate, units: int, fill: int)
    requires k < |s.matchers| && s.matchers[k] == Busy(c, Submitting(units, fill)) && !Refused(s.executions, c, units)
    ensures Enabled(s, Send(k, NotDelivered)) && Apply(s, Send(k, NotDelivered)) == WithPhase(s, k, Busy(c, Failing))
    ensures var e := MatchOf(c, units, fill);
            Enabled(s, Send(k, Delivered)) && Apply(s, Send(k, Delivered)) ==
              WithPhase(s.(executions := s.executions + [e], unrecorded := s.unrecorded + [e]), k,
                Busy(c, Recording(units, fill)))
  {
    hide Refused;
    assert |s.executions + [MatchOf(c, units, fill)]| == |s.executions| + 1;
  }

  lemma LeaveBy(s: State, k: nat, c: Candidate)
    requires k < |s.matchers|
    ensures s.matchers[k] == Busy(c, Failing)
            ==> && Enabled(s, Fail(k, true))
                && Apply(s, Fail(k, true)) == WithPhase(Unreserve(s, c), k, Busy(c, Releasing))
    ensures s.matchers[k] == Busy(c, Releasing)
            ==> Enabled(s, LetGo(k, true)) && Apply(s, LetGo(k, true)) == WithPhase(Unreserve(s, c), k, Idle)
  {
    hide ReleaseRows;
  }

  lemma UnreserveTwo(s: State, b: Order, a: Order)
    requires IsTen(b, "b", Buy, 5, 1) && IsTen(a, "a", Sell, 5, 2)
    requires s.db.rows == [b.(status := Matching), a.(status := Matching)]
    ensures Unreserve(s, Candidate(a, b)) == s.(db := s.db.(rows := [b, a]))
  {
    hide Spot;
    assert ReleaseRows(s.db.rows, Ids(Candidate(a, b))) == [b, a];
  }

  /** The two orders, the matchers and what is on chain. */
  function Shape(born: map<string, Order>, rows: seq<Order>, ms: seq<Phase>, es: seq<Execution>): State {
    State(Db(rows, []), ms, born, [], es, es)
  }

  function Held(b: Order, a: Order): seq<Order> { [b.(status := Matching), a.(status := Matching)] }

  predicate Goes(s: State, step: Step, s': State) { Enabled(s, step) && Apply(s, step) == s' }

  lemma RunGoes(s: State, steps: seq<Step>, mid: State, step: Step, s': State)
    requires Run(s, steps, mid) && Goes(mid, step, s')
    ensures Run(s, steps + [step], s')
  {
    hide Run, Enabled, Apply;
    RunAppend(s, steps, mid, step);
  }

  /** The orders of the two-matcher run. */
  ghost predicate Duo(b: Order, a: Order) {
    IsTen(b, "b", Buy, 5, 1) && IsTen(a, "a", Sell, 5, 2) && Pair(b, a)
  }

  function Fetch(k: nat): Step { Acquire(k, Spot(), 0, Some(0), Some(1)) }

  lemma FetchGoes(born: map<string, Order>, b: Order, a: Order, ms: seq<Phase>, k: nat)
    requires Duo(b, a) && k < |ms| && ms[k] == Idle
    ensures Goes(Shape(born, [b, a], ms, []), Fetch(k),
            Shape(born, Held(b, a), ms[k := Busy(Candidate(a, b), Checking(0))], []))
  {
    hide IsTen, Pair, Spot, Apply, Enabled;
    AcquireBy(Shape(born, [b, a], ms, []), k, b, a);
  }

  lemma CheckGoes(born: map<string, Order>, rows: seq<Order>, b: Order, a: Order, ms: seq<Phase>, k: nat)
    requires Duo(b, a) && k < |ms| && ms[k] == Busy(Candidate(a, b), Checking(0))
    ensures Goes(Shape(born, rows, ms, []), Check(k),
            Shape(born, rows, ms[k := Busy(Candidate(a, b), Submitting(10, 10))], []))
  {
    hide IsTen, Pair, Spot, Apply, Enabled;
    CheckBy(Shape(born, rows, ms, []), k, b, a);
  }

  lemma SendGoes(born: map<string, Order>, rows: seq<Order>, b: Order, a: Order, ms: seq<Phase>, k: nat)
    requires Duo(b, a) && k < |ms| && ms[k] == Busy(Candidate(a, b), Submitting(10, 10))
    ensures Goes(Shape(born, rows, ms, []), Send(k, NotDelivered),
            Shape(born, rows, ms[k := Busy(Candidate(a, b), Failing)], []))
    ensures Goes(Shape(born, rows, ms, []), Send(k, Delivered),
            Shape(born, rows, ms[k := Busy(Candidate(a, b), Recording(10, 10))], [Execution("a", "b", 10, 10)]))
  {
    hide Duo, Spot, Apply, Enabled, Refused;
    DuoAccepted(b, a);
    SendBy(Shape(born, rows, ms, []), k, Candidate(a, b), 10, 10);
    assert [] + [Execution("a", "b", 10, 10)] == [Execution("a", "b", 10, 10)];
  }

  lemma DuoAccepted(b: Order, a: Order)
    requires Duo(b, a)
    ensures !Refused([], Candidate(a, b), 10) && a.orderId == "a" && b.orderId == "b"
  {
    hide Spot, Convertible;
  }

  lemma LeaveGoes(born: map<string, Order>, b: Order, a: Order, ms: seq<Phase>, k: nat)
    requires Duo(b, a) && k < |ms|
    ensures ms[k] == Busy(Candidate(a, b), Failing) ==>
              Goes(Shape(born, Held(b, a), ms, []), Fail(k, true),
                Shape(born, [b, a], ms[k := Busy(Candidate(a, b), Releasing)], []))
    ensures ms[k] == Busy(Candidate(a, b), Releasing) ==>
              Goes(Shape(born, Held(b, a), ms, []), LetGo(k, true), Shape(born, [b, a], ms[k := Idle], []))
  {
    hide IsTen, Pair, Spot, Apply, Enabled, Unreserve;
    UnreserveTwo(Shape(born, Held(b, a), ms, []), b, a);
    LeaveBy(Shape(born, Held(b, a), ms, []), k, Candidate(a, b));
  }

  lemma DuoOpens(b: Order, a: Order)
    requires Duo(b, a)
    ensures Sound(b) && Sound(a) && b.status == Active && a.status == Active && !Clashes([], b) && !Clashes([b], a)
    ensures b.filled == a.filled == 0 && b.createdAt != a.createdAt
  {
    hide Pair, IsBest, ReserveRows, ExpireRows, Spot;
    TwoRows(b, a);
  }

  lemma OpenBook(n: nat, b: Order, a: Order) returns (born: map<string, Order>, steps: seq<Step>)
    requires Duo(b, a)
    ensures Run(Initial(n), steps, Shape(born, [b, a], Initial(n).matchers, []))
  {
    hide Duo, Clashes, Spot, Run, Sound, Initial, CalmRun;
    DuoOpens(b, a);
    var s := Open(n, b, a);
    born, steps := s.born, [Create(b), Create(a)];
    assert s == Shape(born, [b, a], Initial(n).matchers, []);
  }

  /** The first matcher fails and releases, the second reserves, and the first is about to release
      again. */
  lemma ReserveUnderRelease(s: State, before: seq<Step>, born: map<string, Order>, b: Order, a: Order, ms0: seq<Phase>)
    returns (steps: seq<Step>, ms: seq<Phase>)
    requires Duo(b, a) && |ms0| >= 2 && ms0[0] == ms0[1] == Idle && Run(s, before, Shape(born, [b, a], ms0, []))
    ensures Run(s, steps, Shape(born, Held(b, a), ms, [])) && |ms| == |ms0|
    ensures ms[0] == Busy(Candidate(a, b), Releasing) && ms[1] == Busy(Candidate(a, b), Checking(0))
  {
    var (c, r) := (Candidate(a, b), Held(b, a));
    hide Duo, Run, Goes, Shape, Fetch, Held;
    FetchGoes(born, b, a, ms0, 0);
    var ms1 := ms0[0 := Busy(c, Checking(0))];
    RunGoes(s, before, Shape(born, [b, a], ms0, []), Fetch(0), Shape(born, r, ms1, []));
    CheckGoes(born, r, b, a, ms1, 0);
    var ms2 := ms1[0 := Busy(c, Submitting(10, 10))];
    RunGoes(s, before + [Fetch(0)], Shape(born, r, ms1, []), Check(0), Shape(born, r, ms2, []));
    SendGoes(born, r, b, a, ms2, 0);
    var ms3 := ms2[0 := Busy(c, Failing)];
    var three := before + [Fetch(0)] + [Check(0)] + [Send(0, NotDelivered)];
    RunGoes(s, before + [Fetch(0)] + [Check(0)], Shape(born, r, ms2, []), Send(0, NotDelivered),
      Shape(born, r, ms3, []));
    LeaveGoes(born, b, a, ms3, 0);
    var ms4 := ms3[0 := Busy(c, Releasing)];
    RunGoes(s, three, Shape(born, r, ms3, []), Fail(0, true), Shape(born, [b, a], ms4, []));
    FetchGoes(born, b, a, ms4, 1);
    ms := ms4[1 := Busy(c, Checking(0))];
    RunGoes(s, three + [Fail(0, true)], Shape(born, [b, a], ms4, []), Fetch(1), Shape(born, r, ms, []));
    steps := three + [Fail(0, true)] + [Fetch(1)];
  }

  lemma NothingReserved(b: Order, a: Order)
    requires Duo(b, a)
    ensures FinalizeTx(Db([b, a], []), "a", "b", "1", 10) == Err(NotFound) && b.limitPrice == "1" && b.orderId == "b"
            && a.orderId == "a"
  {
    hide Spot, Pair;
  }

  lemma RecordFails(s: State, b: Order, a: Order)
    requires Duo(b, a) && |s.matchers| >= 2 && s.matchers[1] == Busy(Candidate(a, b), Recording(10, 10))
             && s.db == Db([b, a], [])
    ensures Goes(s, Record(1, true), WithPhase(s, 1, Busy(Candidate(a, b), Releasing)))
  {
    hide Duo, FinalizeTx;
    NothingReserved(b, a);
  }

  lemma HeldThenFree(b: Order, a: Order)
    requires Duo(b, a)
    ensures HeldPair(Held(b, a), Candidate(a, b)) && !HeldRow([b, a], a) && !HeldRow([b, a], b)
  {
    hide Spot, Pair;
    assert Held(b, a)[0] == b.(status := Matching) && Held(b, a)[1] == a.(status := Matching);
  }

  /** The other matcher's second release: it takes both of c's rows out of their reservation while
      matcher 1, which reserved them, is still at work on the pair. */
  ghost predicate ReleasedUnder(mid: State, c: Candidate) {
    && |mid.matchers| >= 2 && mid.matchers[1] == Busy(c, Checking(0)) && HeldPair(mid.db.rows, c)
    && Enabled(mid, LetGo(0, true))
    && var rows := Apply(mid, LetGo(0, true)).db.rows; !HeldRow(rows, c.taker) && !HeldRow(rows, c.maker)
  }

  /** With two matchers or more a reservation is not exclusive: a run in which the second matcher
      has reserved a pair, the first matcher's second release frees both rows under it, the second
      still executes the match on chain, and then its recording fails although the database works. */
  lemma SecondMatcherLosesReservation(n: nat)
    returns (before: seq<Step>, mid: State, after: seq<Step>, s: State, c: Candidate)
    requires n >= 2
    ensures Run(Initial(n), before, mid) && ReleasedUnder(mid, c)
    ensures Run(Apply(mid, LetGo(0, true)), after, s) && after == [Check(1), Send(1, Delivered)]
    ensures |s.matchers| >= 2 && s.matchers[1] == Busy(c, Recording(10, 10)) && s.executions == [MatchOf(c, 10, 10)]
    ensures Goes(s, Record(1, true), WithPhase(s, 1, Busy(c, Releasing)))
  {
    var b, a, r := SomeTrio();
    c := Candidate(a, b);
    assert Duo(b, a);
    hide Trio, Duo, Spot, Run, Enabled, Apply, Goes, ReleasedUnder;
    var born, ms;
    born, before, ms := GetReleased(n, b, a);
    mid := Shape(born, Held(b, a), ms, []);
    c := Candidate(a, b);
    s := FinishFreed(born, ms[0 := Idle], b, a);
    after := [Check(1), Send(1, Delivered)];
  }

  lemma GetReleased(n: nat, b: Order, a: Order) returns (born: map<string, Order>, before: seq<Step>, ms: seq<Phase>)
    requires Duo(b, a) && n >= 2
    ensures var mid := Shape(born, Held(b, a), ms, []);
            && Run(Initial(n), before, mid) && ReleasedUnder(mid, Candidate(a, b)) && |ms| >= 2
            && ms[1] == Busy(Candidate(a, b), Checking(0))
            && Apply(mid, LetGo(0, true)) == Shape(born, [b, a], ms[0 := Idle], [])
  {
    hide Duo, Spot, Run, Enabled, Apply, HeldRow, Held;
    var first;
    born, first := OpenBook(n, b, a);
    before, ms := ReserveUnderRelease(Initial(n), first, born, b, a, Initial(n).matchers);
    LeaveGoes(born, b, a, ms, 0);
    HeldThenFree(b, a);
  }

  lemma FinishFreed(born: map<string, Order>, ms: seq<Phase>, b: Order, a: Order) returns (s: State)
    requires Duo(b, a) && |ms| >= 2 && ms[1] == Busy(Candidate(a, b), Checking(0))
    ensures Run(Shape(born, [b, a], ms, []), [Check(1), Send(1, Delivered)], s)
    ensures |s.matchers| >= 2 && s.matchers[1] == Busy(Candidate(a, b), Recording(10, 10))
    ensures s.executions == [MatchOf(Candidate(a, b), 10, 10)]
    ensures Goes(s, Record(1, true), WithPhase(s, 1, Busy(Candidate(a, b), Releasing)))
  {
    hide Duo, Run, Enabled, Apply;
    CheckGoes(born, [b, a], b, a, ms, 1);
    var ms1 := ms[1 := Busy(Candidate(a, b), Submitting(10, 10))];
    SendGoes(born, [b, a], b, a, ms1, 1);
    DuoAccepted(b, a);
    s := Shape(born, [b, a], ms1[1 := Busy(Candidate(a, b), Recording(10, 10))], [Execution("a", "b", 10, 10)]);
    TwoSteps(Shape(born, [b, a], ms, []), Check(1), Shape(born, [b, a], ms1, []), Send(1, Delivered), s);
    RecordFails(s, b, a);
  }

  // ---------------------------------------------------------------- how many matchers

  /** A recording with a working database goes through. */
  predicate Records(s: State, k: nat)
    requires Enabled(s, Record(k, true))
  {
    Apply(s, Record(k, true)).matchers[k].Idle?
  }

  ghost predicate RecordingsNeverFail(n: nat) {
    forall steps, s, k: nat :: Run(Initial(n), steps, s) && Enabled(s, Record(k, true)) ==> Records(s, k)
  }

  lemma {:induction false} MatchersRemain(s: State, steps: seq<Step>, s': State)
    requires Run(s, steps, s')
    ensures |s'.matchers| == |s.matchers|
    decreases |steps|
  {
    if steps != [] {
      hide Apply, Enabled;
      MatchersStay(s, steps[0]);
      MatchersRemain(Apply(s, steps[0]), steps[1..], s');
    }
  }

  /** Recordings never fail in the store, in any run, exactly when there is at most one matcher. */
  lemma RecordingsNeverFailIff(n: nat)
    ensures RecordingsNeverFail(n) <==> n <= 1
  {
    if n <= 1 {
      forall steps, s, k: nat | Run(Initial(n), steps, s) && Enabled(s, Record(k, true)) ensures Records(s, k) {
        MatchersRemain(Initial(n), steps, s);
        LoneRecords(n, steps, s, k);
      }
    } else {
      hide Run, Enabled, Apply;
      var before, mid, after, s, c := SecondMatcherLosesReservation(n);
      var rest := [LetGo(0, true)] + after;
      FirstThen(mid, LetGo(0, true), Apply(mid, LetGo(0, true)), after, s);
      RunConcat(Initial(n), before, mid, rest, s);
      assert !Records(s, 1);
    }
  }

  lemma LoneRecords(n: nat, steps: seq<Step>, s: State, k: nat)
    requires n <= 1 && Run(Initial(n), steps, s) && |s.matchers| == n && Enabled(s, Record(k, true))
    ensures Records(s, k)
  {
    assert n == 1 && k == 0;
    hide Run, Apply, Initial;
    FinalizeNeverFails(steps, s);
  }
}

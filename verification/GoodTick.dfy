/** One tick of a lone matcher in good weather: every reply delivered, every store call working. */
module GoodTick {
  import opened Arith
  import opened Drain
  import opened MatchRules
  import opened Orders
  import opened Protocol
  import opened Runs
  import opened Ticks
  import opened Wrappers

  /** The chain has carried out exactly what is recorded. */
  ghost predicate InStep(s: State) { forall id :: Used(s.executions, id) == Used(s.settled, id) }

  /** The chain accepts a submission while it is in step with the trade rows. */
  lemma InStepAccepts(s: State, c: Candidate, now: int, b: nat, a: nat)
    requires Inv(s) && InStep(s) && b < |s.db.rows| && a < |s.db.rows| && s.db.rows[b].side.Buy?
             && s.db.rows[a].side.Sell?
    requires c == ChooseTakerMaker(s.db.rows[b], s.db.rows[a]) && Decide(c, now).Submit?
    ensures !Refused(s.executions, c, Decide(c, now).units.amount)
  {
    assert c.taker in {s.db.rows[b], s.db.rows[a]} && c.maker in {s.db.rows[b], s.db.rows[a]};
    assert c.taker.side != c.maker.side;
    hide Inv, Decide, Used, SignedAmount, ChooseTakerMaker;
    SubmitMeans(c, now);
    CapLeft(s, b, Decide(c, now).fill, Decide(c, now).units.amount);
    CapLeft(s, a, Decide(c, now).fill, Decide(c, now).units.amount);
  }

  lemma CapLeft(s: State, i: nat, fill: int, units: int)
    requires Inv(s) && InStep(s) && i < |s.db.rows|
    ensures var o := s.db.rows[i];
            Proportional(o, fill, units) && SignedAmount(o) > 0 && o.filled + fill <= o.desired
            ==> Used(s.executions, o.orderId) + units <= SignedAmount(o)
  {
    var o := s.db.rows[i];
    InvRow(s, i);
    assert Used(s.executions, o.orderId) == Used(s.settled, o.orderId);
    assert s.born[o.orderId].filled >= 0 && o.desired > 0;
    hide Inv, InStep, TradesOk, Used, SignedAmount, TradeVolume, UniqueKeys;
    OrderBudget(o, s.born, s.db.trades, s.settled);
    hide RowOk;
    UnderCap(Used(s.settled, o.orderId), SignedAmount(o), o.desired, o.filled - s.born[o.orderId].filled, fill, units);
  }

  lemma UnderCap(used: int, signed: int, desired: int, filled: int, fill: int, units: int)
    requires used * desired == filled * signed && desired > 0
    ensures units * desired == fill * signed && signed > 0 && filled + fill <= desired ==> used + units <= signed
  {
    if units * desired == fill * signed && signed > 0 && filled + fill <= desired {
      assert (used + units) * desired == (filled + fill) * signed;
      MulMono(filled + fill, desired, signed);
      if used + units > signed { MulMono(signed + 1, used + units, desired); }
    }
  }

  lemma ReservedElsewhere(rows: seq<Order>, b: nat, a: nat)
    requires UniqueKeys(rows) && b < |rows| && a < |rows| && b != a && rows[b].status == Active
             && rows[a].status == Active
    ensures var ids := {rows[b].orderId, rows[a].orderId};
            && ReserveRows(rows, ids) == rows[b := rows[b].(status := Matching)][a := rows[a].(status := Matching)]
            && ReleaseRows(ReserveRows(rows, ids), ids) == rows
            && UniqueKeys(ReserveRows(rows, ids))
  {
  }

  /** One trade of the given size is appended. */
  predicate Extends(trades: seq<Trade>, trades': seq<Trade>, size: int) {
    |trades'| == |trades| + 1 && trades'[..|trades|] == trades && trades'[|trades|].size == size
  }

  lemma ReservedFinalize(rows: seq<Order>, trades: seq<Trade>, t: nat, m: nat, price: string, size: int)
    requires UniqueKeys(rows) && t < |rows| && m < |rows| && t != m && rows[t].status == Active
             && rows[m].status == Active
    requires rows[t].filled + size <= rows[t].desired && rows[m].filled + size <= rows[m].desired
    ensures var db := Db(ReserveRows(rows, {rows[t].orderId, rows[m].orderId}), trades);
            var r := FinalizeTx(db, rows[t].orderId, rows[m].orderId, price, size);
            && r.Ok? && r.value.rows == rows[t := FilledRow(rows[t], size)][m := FilledRow(rows[m], size)]
            && Extends(trades, r.value.trades, size)
  {
    var ids := {rows[t].orderId, rows[m].orderId};
    ReservedElsewhere(rows, t, m);
    var reserved := ReserveRows(rows, ids);
    hide FinalizeTx, UniqueKeys, ReserveRows, ReleaseRows;
    FinalizeIff(Db(reserved, trades), t, m, price, size);
    assert FilledRow(reserved[t], size) == FilledRow(rows[t], size)
        && FilledRow(reserved[m], size) == FilledRow(rows[m], size);
    hide FilledRow;
  }

  /** Recording a reserved pair leaves the rows of the matched book. */
  lemma ReservedThenFilled(rows: seq<Order>, trades: seq<Trade>, b: nat, a: nat, c: Candidate)
    requires UniqueKeys(rows) && b < |rows| && a < |rows| && b != a && rows[b].status == Active
             && rows[a].status == Active
    requires c == ChooseTakerMaker(rows[b], rows[a]) && 0 <= rows[b].filled <= rows[b].desired
             && 0 <= rows[a].filled <= rows[a].desired
    ensures var db := Db(ReserveRows(rows, Ids(c)), trades);
            var r := FinalizeTx(db, c.taker.orderId, c.maker.orderId, c.maker.limitPrice, FillAt(rows, b, a));
            && r.Ok? && r.value.rows == AfterMatch(rows, b, a)
            && Extends(trades, r.value.trades, FillAt(rows, b, a))
  {
    var size := FillAt(rows, b, a);
    assert c == Candidate(rows[b], rows[a]) || c == Candidate(rows[a], rows[b]);
    assert rows[b].filled + size <= rows[b].desired && rows[a].filled + size <= rows[a].desired;
    hide FinalizeTx, UniqueKeys, ReserveRows, ChooseTakerMaker, FillAt, FilledRow, Extends;
    if c == Candidate(rows[b], rows[a]) {
      ReservedFinalize(rows, trades, b, a, c.maker.limitPrice, size);
    } else {
      assert {rows[a].orderId, rows[b].orderId} == {rows[b].orderId, rows[a].orderId};
      ReservedFinalize(rows, trades, a, b, c.maker.limitPrice, size);
      assert rows[a := FilledRow(rows[a], size)][b := FilledRow(rows[b], size)] == rows[b := FilledRow(rows[b],
          size)][a := FilledRow(rows[a], size)];
    }
  }

  /** Where a matching tick stands after acquiring. */
  function AfterAcquire(s: State, b: nat, a: nat, now: int): State
    requires b < |s.db.rows| && a < |s.db.rows|
  {
    var c := ChooseTakerMaker(s.db.rows[b], s.db.rows[a]);
    s.(db := s.db.(rows := ReserveRows(s.db.rows, Ids(c))), matchers := [Busy(c, Checking(now))])
  }

  lemma StaticPair(s: State, b: nat, a: nat)
    requires Inv(s) && b < |s.db.rows| && a < |s.db.rows|
    ensures UniqueKeys(s.db.rows)
    ensures s.db.rows[b].ticks > 0 && 0 <= s.db.rows[b].filled <= s.db.rows[b].desired
    ensures s.db.rows[a].ticks > 0 && 0 <= s.db.rows[a].filled <= s.db.rows[a].desired
  {
    InvRow(s, b);
    InvRow(s, a);
    hide TradesOk, PhaseOk, TradeVolume;
  }

  lemma StaysInStep(s: State, s': State, e: Execution)
    requires InStep(s) && s'.executions == s.executions + [e] && s'.settled == s.settled + [e]
    ensures InStep(s')
  {
    forall id ensures Used(s'.executions, id) == Used(s'.settled, id) {
      assert (s.executions + [e])[..|s.executions|] == s.executions;
      assert (s.settled + [e])[..|s.settled|] == s.settled;
    }
  }

  // ---------------------------------------------------------------- good weather

  /** A step of the matcher in good weather: this market, before the deadline, every reply
      delivered and every store call working. */
  predicate Fair(step: Step, market: Market, until: int) {
    match step
    case Acquire(_, m, now, _, _) => m == market && now <= until
    case Check(_) => true
    case Send(_, transport) => transport == Delivered
    case Record(_, dbOk) => dbOk
    case Fail(_, dbOk) => dbOk
    case LetGo(_, dbOk) => dbOk
    case _ => false
  }

  predicate Undisturbed(steps: seq<Step>, market: Market, until: int) {
    forall i | 0 <= i < |steps| :: Fair(steps[i], market, until)
  }

  /** A lone matcher has one step to take. */
  lemma OnlyStep(s: State, step: Step, market: Market, until: int)
    requires |s.matchers| == 1 && Enabled(s, step) && Fair(step, market, until)
    ensures match s.matchers[0]
            case Idle => step.Acquire? && step.k == 0 && step.market == market && step.now <= until
            case Busy(_, Checking(_)) => step == Check(0)
            case Busy(_, Submitting(_, _)) => step == Send(0, Delivered)
            case Busy(_, Recording(_, _)) => step == Record(0, true)
            case Busy(_, Failing) => step == Fail(0, true)
            case Busy(_, Releasing) => step == LetGo(0, true)
  {
  }

  lemma NextStep(s: State, steps: seq<Step>, s': State, market: Market, until: int)
    requires |s.matchers| == 1 && Run(s, steps, s') && Undisturbed(steps, market, until) && s'.matchers == [Idle]
    requires s.matchers[0].Busy? || steps != []
    ensures steps != [] && Enabled(s, steps[0]) && Fair(steps[0], market, until)
    ensures Run(Apply(s, steps[0]), steps[1..], s') && Undisturbed(steps[1..], market, until)
  {
    hide Enabled, Apply, Fair;
  }

  /** Inside a tick an undisturbed run has no choice. */
  lemma {:induction false} SameTail(s: State, p: seq<Step>, mid: State, steps: seq<Step>, s': State, market: Market,
      until: int)
    requires |s.matchers| == 1 && Run(s, p, mid) && Undisturbed(p, market, until) && forall i | 0 <= i < |p| ::
             !p[i].Acquire?
    requires Run(s, steps, s') && Undisturbed(steps, market, until) && s'.matchers == [Idle]
    ensures |p| <= |steps| && Run(mid, steps[|p|..], s') && forall i | 0 <= i < |p| :: steps[i] == p[i]
    decreases |p|
  {
    if p == [] {
      assert steps[0..] == steps;
    } else {
      assert Enabled(s, p[0]) && Fair(p[0], market, until) && Run(Apply(s, p[0]), p[1..], mid);
      hide Apply, Enabled, Run, Fair;
      OnlyStep(s, p[0], market, until);
      NextStep(s, steps, s', market, until);
      OnlyStep(s, steps[0], market, until);
      MatchersStay(s, p[0]);
      SameTail(Apply(s, p[0]), p[1..], mid, steps[1..], s', market, until);
      assert steps[1..][|p| - 1..] == steps[|p|..];
      assert forall i | 0 <= i < |p| :: steps[i] == if i == 0 then steps[0] else steps[1..][i - 1];
    }
  }

  /** The three steps of a crossing tick after the acquisition. */
  function Rest(): seq<Step> { [Check(0), Send(0, Delivered), Record(0, true)] }

  lemma MatchedRange(rows: seq<Order>, market: Market, b: nat, a: nat)
    requires Matched(rows, market, b, a)
    ensures b < |rows| && a < |rows|
  {
  }

  lemma RestFacts(s: State, b: nat, a: nat, now: int, market: Market, until: int)
    requires b < |s.db.rows| && a < |s.db.rows|
    ensures |AfterAcquire(s, b, a, now).matchers| == 1 && Undisturbed(Rest(), market, until)
    ensures |Rest()| == 3 && forall i | 0 <= i < 3 :: !Rest()[i].Acquire?
  {
    hide ReserveRows, ChooseTakerMaker;
  }

  lemma ReleaseUndoes(s: State, b: nat, a: nat, now: int)
    requires UniqueKeys(s.db.rows) && s.matchers == [Idle] && b < |s.db.rows| && a < |s.db.rows| && b != a
    requires s.db.rows[b].status == Active && s.db.rows[a].status == Active
    ensures var (c, s1) := (ChooseTakerMaker(s.db.rows[b], s.db.rows[a]), AfterAcquire(s, b, a, now));
            var s2 := s1.(matchers := [Busy(c, Releasing)]);
            Enabled(s2, LetGo(0, true)) && Apply(s2, LetGo(0, true)) == s
  {
    var c := ChooseTakerMaker(s.db.rows[b], s.db.rows[a]);
    assert Ids(c) == {s.db.rows[b].orderId, s.db.rows[a].orderId};
    hide ChooseTakerMaker, UniqueKeys, ReserveRows, ReleaseRows;
    ReservedElsewhere(s.db.rows, b, a);
  }

  // ---------------------------------------------------------------- the two ways a crossing tick can go

  /** An idle matcher, a chain in step, and two crossing heads in what is left after expiry. */
  ghost predicate Ready(s: State, market: Market, now: int, b: nat, a: nat) {
    && Inv(s) && s.matchers == [Idle] && InStep(s)
    && Matched(ExpireRows(s.db.rows, now), market, b, a)
  }

  predicate HasRoom(o: Order) { o.filled < o.desired }

  lemma LiveHeads(rows: seq<Order>, market: Market, now: int, b: nat, a: nat)
    requires Matched(ExpireRows(rows, now), market, b, a)
    ensures var live := ExpireRows(rows, now);
            && b < |live| && a < |live| && b != a
            && live[b].status == Active && live[a].status == Active && live[b].side.Buy? && live[a].side.Sell?
            && live[b].ticks >= live[a].ticks && !live[b].IsExpired(now) && !live[a].IsExpired(now)
            && IsBest(live, market, Buy, b) && IsBest(live, market, Sell, a)
  {
  }

  /** What acquiring the two heads starts from. */
  ghost predicate Heads(s0: State, now: int, b: nat, a: nat) {
    && Inv(s0) && InStep(s0) && s0.matchers == [Idle]
    && b < |s0.db.rows| && a < |s0.db.rows| && b != a && UniqueKeys(s0.db.rows)
    && var (x, y) := (s0.db.rows[b], s0.db.rows[a]);
       && x.status == Active && y.status == Active && x.side.Buy? && y.side.Sell?
       && x.ticks >= y.ticks > 0 && !x.IsExpired(now) && !y.IsExpired(now)
       && 0 <= x.filled <= x.desired && 0 <= y.filled <= y.desired
  }

  lemma ReadyHeads(s: State, market: Market, now: int, b: nat, a: nat)
    requires Ready(s, market, now, b, a)
    ensures Heads(Swept(s, now), now, b, a)
  {
    var s0 := Swept(s, now);
    hide Inv, IsBest, Enabled, Apply, ExpireRows, UniqueKeys, Used;
    LiveHeads(s.db.rows, market, now, b, a);
    ExpireForm(s, now);
    EnabledExpire(s, now);
    StepKeepsInv(s, Expire(now));
    StaticPair(s0, b, a);
  }

  lemma ReadyAcquires(s: State, market: Market, now: int, b: nat, a: nat)
    requires Ready(s, market, now, b, a)
    ensures b < |s.db.rows| && a < |s.db.rows|
    ensures Enabled(s, Acquire(0, market, now, Some(b), Some(a)))
    ensures Apply(s, Acquire(0, market, now, Some(b), Some(a))) == AfterAcquire(Swept(s, now), b, a, now)
  {
    var live := ExpireRows(s.db.rows, now);
    hide Inv, InStep, IsBest, ReserveRows, ChooseTakerMaker, Enabled, Apply, ExpireRows;
    LiveHeads(s.db.rows, market, now, b, a);
    AcquireHeads(s, 0, market, now, b, a, live, ChooseTakerMaker(live[b], live[a]));
  }

  lemma EnabledExpire(s: State, now: int)
    ensures Enabled(s, Expire(now))
  {
  }

  /** Heads with room that convert are submitted, for the smaller remainder. */
  lemma RoomSubmits(x: Order, y: Order, now: int, ps: int, amounts: int)
    requires x.side.Buy? && y.side.Sell? && x.ticks >= y.ticks > 0 && !x.IsExpired(now) && !y.IsExpired(now)
    requires 0 <= x.filled < x.desired && 0 <= y.filled < y.desired
    requires Convertible(ChooseTakerMaker(x, y), ps, amounts)
    ensures var c := ChooseTakerMaker(x, y);
            && Decide(c, now) == Submit(Units(c.maker.ticks * ps, FillOf(c) * amounts), FillOf(c))
            && FillOf(c) == Min(Remaining(x), Remaining(y))
  {
    var c := ChooseTakerMaker(x, y);
    CrossesIff(x, y);
    assert Tradeable(c);
    hide Convertible, ComputeExecutionUnits;
    ConversionIff(c, ps, amounts);
  }

  /** Crossing heads with room that convert are matched, and the matcher is idle again. */
  lemma RecordingTick(s: State, market: Market, now: int, b: nat, a: nat, ps: int, amounts: int) returns (s': State)
    requires Ready(s, market, now, b, a)
    requires var live := ExpireRows(s.db.rows, now);
             HasRoom(live[b]) && HasRoom(live[a]) && Convertible(ChooseTakerMaker(live[b], live[a]), ps, amounts)
    ensures Run(s, [Acquire(0, market, now, Some(b), Some(a))] + Rest(), s')
    ensures Run(AfterAcquire(Swept(s, now), b, a, now), Rest(), s')
    ensures s'.matchers == [Idle] && InStep(s') && s'.db.rows == AfterMatch(ExpireRows(s.db.rows, now), b, a)
    ensures Extends(s.db.trades, s'.db.trades, FillAt(ExpireRows(s.db.rows, now), b, a))
  {
    hide Ready, Inv, InStep, Convertible, Decide, Refused, ChooseTakerMaker, UniqueKeys, ExpireRows, AfterMatch,
        AfterAcquire;
    hide Apply, Enabled, Run, Extends, FillAt, Rest, Heads;
    ReadyHeads(s, market, now, b, a);
    ReadyAcquires(s, market, now, b, a);
    s' := HeadsRecord(Swept(s, now), now, b, a, ps, amounts);
    FirstThenRest(s, Acquire(0, market, now, Some(b), Some(a)), AfterAcquire(Swept(s, now), b, a, now), s');
  }

  lemma HeadsRecord(s: State, now: int, b: nat, a: nat, ps: int, amounts: int) returns (s': State)
    requires Heads(s, now, b, a) && HasRoom(s.db.rows[b]) && HasRoom(s.db.rows[a])
    requires Convertible(ChooseTakerMaker(s.db.rows[b], s.db.rows[a]), ps, amounts)
    ensures Run(AfterAcquire(s, b, a, now), Rest(), s') && s'.matchers == [Idle] && InStep(s')
    ensures s'.db.rows == AfterMatch(s.db.rows, b, a) && Extends(s.db.trades, s'.db.trades, FillAt(s.db.rows, b, a))
  {
    var c := ChooseTakerMaker(s.db.rows[b], s.db.rows[a]);
    hide Inv, InStep, Convertible, Decide, Refused, ChooseTakerMaker, UniqueKeys, FillOf, AfterMatch, Run, Extends,
        Rest, Remaining, AfterAcquire;
    RoomSubmits(s.db.rows[b], s.db.rows[a], now, ps, amounts);
    InStepAccepts(s, c, now, b, a);
    s' := FinishGood(s, AfterAcquire(s, b, a, now), c, now, Units(c.maker.ticks * ps, FillOf(c) * amounts), b, a);
  }

  lemma FirstThenRest(s: State, first: Step, s1: State, s': State)
    requires Enabled(s, first) && Apply(s, first) == s1 && Run(s1, Rest(), s')
    ensures Run(s, [first] + Rest(), s')
  {
    hide Enabled, Apply, Rest, Run;
    FirstThen(s, first, s1, Rest(), s');
  }

  /** Check, submission and recording of a pair that is reserved and will be accepted. */
  lemma FinishGood(s: State, s1: State, c: Candidate, now: int, units: Units, b: nat, a: nat) returns (s': State)
    requires InStep(s) && UniqueKeys(s.db.rows) && b < |s.db.rows| && a < |s.db.rows| && b != a
    requires s.db.rows[b].status == Active && s.db.rows[a].status == Active
             && c == ChooseTakerMaker(s.db.rows[b], s.db.rows[a])
    requires 0 <= s.db.rows[b].filled <= s.db.rows[b].desired && 0 <= s.db.rows[a].filled <= s.db.rows[a].desired
    requires s1 == AfterAcquire(s, b, a, now)
    requires Decide(c, now) == Submit(units, FillAt(s.db.rows, b, a)) && !Refused(s.executions, c, units.amount)
    ensures Run(s1, Rest(), s') && s'.matchers == [Idle] && InStep(s') && s'.db.rows == AfterMatch(s.db.rows, b, a)
    ensures Extends(s.db.trades, s'.db.trades, FillAt(s.db.rows, b, a))
  {
    hide Decide, Refused, ChooseTakerMaker, UniqueKeys, FinalizeTx, ReserveRows, AfterMatch, FillAt, Apply, Enabled,
        RemoveOne, InStep, Run, Extends;
    var fill := FillAt(s.db.rows, b, a);
    CheckSubmits(s1, c, now, units, fill);
    var s2 := s1.(matchers := [Busy(c, Submitting(units.amount, fill))]);
    SendAccepted(s2, c, units.amount, fill);
    var e := MatchOf(c, units.amount, fill);
    var s3 := s2.(executions := s2.executions + [e], unrecorded := s2.unrecorded + [e],
        matchers := [Busy(c, Recording(units.amount, fill))]);
    ReservedThenFilled(s.db.rows, s.db.trades, b, a, c);
    RecordSucceeds(s3, c, units.amount, fill);
    s' := Apply(s3, Record(0, true));
    ThreeSteps(s1, Check(0), s2, Send(0, Delivered), s3, Record(0, true), s');
    StaysInStep(s, s', e);
  }

  /** Two crossing heads of which one has nothing left are handed out and taken back: the tick
      leaves the state as expiry left it, and so does every later one. */
  lemma FullHeadStalls(s: State, market: Market, now: int, b: nat, a: nat)
    requires Ready(s, market, now, b, a)
    requires var live := ExpireRows(s.db.rows, now); !HasRoom(live[b]) || !HasRoom(live[a])
    ensures Run(s, [Acquire(0, market, now, Some(b), Some(a)), Check(0), LetGo(0, true)], Swept(s, now))
    ensures Run(AfterAcquire(Swept(s, now), b, a, now), [Check(0), LetGo(0, true)], Swept(s, now))
    ensures Swept(s, now).matchers == [Idle]
  {
    hide Ready, Inv, InStep, Decide, ChooseTakerMaker, UniqueKeys, ExpireRows, AfterAcquire, Apply, Enabled, Run, Heads;
    var (s0, first) := (Swept(s, now), Acquire(0, market, now, Some(b), Some(a)));
    ReadyHeads(s, market, now, b, a);
    ReadyAcquires(s, market, now, b, a);
    HeadsReturn(s0, now, b, a);
    FirstThen(s, first, AfterAcquire(s0, b, a, now), [Check(0), LetGo(0, true)], s0);
    assert [first] + [Check(0), LetGo(0, true)] == [first, Check(0), LetGo(0, true)];
  }

  lemma HeadsReturn(s: State, now: int, b: nat, a: nat)
    requires Heads(s, now, b, a) && (!HasRoom(s.db.rows[b]) || !HasRoom(s.db.rows[a]))
    ensures Run(AfterAcquire(s, b, a, now), [Check(0), LetGo(0, true)], s) && s.matchers == [Idle]
  {
    var c := ChooseTakerMaker(s.db.rows[b], s.db.rows[a]);
    hide Inv, InStep, Decide, ChooseTakerMaker, UniqueKeys, ReserveRows, ReleaseRows, Apply, Enabled, Run;
    NothingLeft(s.db.rows[b], s.db.rows[a], now);
    var s1 := AfterAcquire(s, b, a, now);
    var s2 := s1.(matchers := [Busy(c, Releasing)]);
    CheckReleases(s1, c, now);
    ReleaseUndoes(s, b, a, now);
    TwoSteps(s1, Check(0), s2, LetGo(0, true), s);
  }

  lemma NothingLeft(x: Order, y: Order, now: int)
    requires x.filled == x.desired || y.filled == y.desired
    requires x.filled <= x.desired && y.filled <= y.desired
    ensures Decide(ChooseTakerMaker(x, y), now) == Release
  {
    hide ComputeExecutionUnits, StringAfter;
  }

  lemma CheckReleases(s: State, c: Candidate, now: int)
    requires s.matchers == [Busy(c, Checking(now))] && Decide(c, now) == Release
    ensures Enabled(s, Check(0)) && Apply(s, Check(0)) == s.(matchers := [Busy(c, Releasing)])
  {
    hide Decide;
  }

  /** Nothing but acquisitions follows a finished tick. */
  lemma NoMore(s: State, steps: seq<Step>, s': State, market: Market, until: int)
    requires s.matchers == [Idle] && Run(s, steps, s') && Undisturbed(steps, market, until) && s'.matchers == [Idle]
    requires forall i | 0 <= i < |steps| :: !steps[i].Acquire?
    ensures steps == [] && s' == s
  {
    if steps != [] {
      hide Run, Enabled, Apply;
      NextStep(s, steps, s', market, until);
      OnlyStep(s, steps[0], market, until);
    }
  }

  /** On crossing, convertible heads a whole good-weather tick, however it is spelled, records a
      trade exactly when both heads have room; it is then of the smaller remainder, and otherwise
      nothing but expiry has happened. */
  lemma TickRecordsIff(s: State, market: Market, now: int, b: nat, a: nat, ps: int, amounts: int, rest: seq<Step>,
      s': State)
    requires Ready(s, market, now, b, a)
    requires var live := ExpireRows(s.db.rows, now); Convertible(ChooseTakerMaker(live[b], live[a]), ps, amounts)
    requires Run(s, [Acquire(0, market, now, Some(b), Some(a))] + rest, s') && s'.matchers == [Idle]
    requires Undisturbed(rest, market, now) && forall i | 0 <= i < |rest| :: !rest[i].Acquire?
    ensures var live := ExpireRows(s.db.rows, now);
            if HasRoom(live[b]) && HasRoom(live[a]) then
              Extends(s.db.trades, s'.db.trades, FillAt(live, b, a)) && s'.db.rows == AfterMatch(live, b, a)
            else s' == Swept(s, now)
  {
    hide Ready, Inv, InStep, Matched, Convertible, Run, Apply, Enabled, ExpireRows, ChooseTakerMaker, AfterMatch,
        Extends, FillAt;
    hide AfterAcquire, Rest, Undisturbed;
    var (s0, first, live) := (Swept(s, now), Acquire(0, market, now, Some(b), Some(a)), ExpireRows(s.db.rows, now));
    ReadyAcquires(s, market, now, b, a);
    RunTail(s, first, rest, s');
    RestFacts(s0, b, a, now, market, now);
    if HasRoom(live[b]) && HasRoom(live[a]) {
      var mid := RecordingTick(s, market, now, b, a, ps, amounts);
      WholeTick(AfterAcquire(s0, b, a, now), Rest(), mid, rest, s', market, now);
    } else {
      FullHeadStalls(s, market, now, b, a);
      ShortRest(market, now);
      WholeTick(AfterAcquire(s0, b, a, now), [Check(0), LetGo(0, true)], s0, rest, s', market, now);
    }
  }

  /** Two undisturbed completions of one tick end alike. */
  lemma WholeTick(s1: State, p: seq<Step>, mid: State, rest: seq<Step>, s': State, market: Market, until: int)
    requires |s1.matchers| == 1 && Run(s1, p, mid) && mid.matchers == [Idle] && Undisturbed(p, market, until)
    requires forall i | 0 <= i < |p| :: !p[i].Acquire?
    requires Run(s1, rest, s') && s'.matchers == [Idle] && Undisturbed(rest, market, until)
    requires forall i | 0 <= i < |rest| :: !rest[i].Acquire?
    ensures s' == mid
  {
    hide Run, Undisturbed;
    SameTail(s1, p, mid, rest, s', market, until);
    Remainder(rest, |p|, market, until);
    NoMore(mid, rest[|p|..], s', market, until);
  }

  lemma Remainder(steps: seq<Step>, n: nat, market: Market, until: int)
    requires n <= |steps| && Undisturbed(steps, market, until) && forall i | 0 <= i < |steps| :: !steps[i].Acquire?
    ensures Undisturbed(steps[n..], market, until) && forall i | 0 <= i < |steps[n..]| :: !steps[n..][i].Acquire?
  {
    hide Fair;
  }

  lemma ShortRest(market: Market, until: int)
    ensures Undisturbed([Check(0), LetGo(0, true)], market, until)
  {
  }
}

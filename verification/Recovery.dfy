/** How a match that is on chain but has no trade row gets one, and why no match happens twice. */
module Recovery {
  import opened ExactlyOnce
  import opened MatchRules
  import opened Orders
  import opened Protocol
  import opened Runs
  import opened Solo
  import opened Ticks
  import opened Wrappers

  // ---------------------------------------------------------------- the next tick records it

  /** e is on chain and unrecorded, and its two orders, rows t and m, are back in the book. */
  ghost predicate Missing(s: State, e: Execution, t: nat, m: nat) {
    && s.matchers == [Idle] && e in s.unrecorded && t < |s.db.rows| && m < |s.db.rows|
    && s.db.rows[t].orderId == e.taker && s.db.rows[m].orderId == e.maker && s.db.rows[t].status == Active
  }

  lemma DecidedNow(c: Candidate, units: int, fill: int, now: int)
    requires Decided(c, units, fill) && !c.taker.IsExpired(now) && !c.maker.IsExpired(now)
    ensures Decide(c, now).Submit? && Decide(c, now).units.amount == units && Decide(c, now).fill == fill
  {
    hide ComputeExecutionUnits, Crosses, FillOf;
  }

  lemma MissingPending(s: State, e: Execution, t: nat, m: nat)
    requires Inv(s) && Once(s) && Missing(s, e, t, m)
    ensures PendingAt(s.db.rows, e, t, m) && NamedBy(s.unrecorded, e.taker) && NamedBy(s.unrecorded, e.maker)
  {
    var i :| 0 <= i < |s.unrecorded| && s.unrecorded[i] == e;
    assert Pending(s.db.rows, e) && s.unrecorded[i].Names(e.taker) && s.unrecorded[i].Names(e.maker);
    assert UniqueKeys(s.db.rows);
    hide Inv, Once, Decided, Top, UniqueKeys;
    var t': nat, m': nat :| PendingAt(s.db.rows, e, t', m');
    IndexIsUnique(s.db.rows, t, t');
    IndexIsUnique(s.db.rows, m, m');
  }

  /** Both orders survive a calm expiry. */
  lemma MissingSurvives(s: State, e: Execution, t: nat, m: nat, now: int)
    requires Inv(s) && Once(s) && Missing(s, e, t, m) && NoneExpires(s, now)
    ensures var live := ExpireRows(s.db.rows, now);
            && live[t] == s.db.rows[t] && live[m] == s.db.rows[m] && !live[t].IsExpired(now) && !live[m].IsExpired(now)
            && s.db.rows[m].status == Active
  {
    MissingPending(s, e, t, m);
    hide Inv, Once, Decided, Top, NamedBy;
  }

  lemma StillMissing(s: State, e: Execution, t: nat, m: nat, now: int)
    requires Inv(s) && Once(s) && Missing(s, e, t, m) && NoneExpires(s, now)
    ensures Missing(Swept(s, now), e, t, m)
  {
    hide Inv, Once, NoneExpires, ExpireRow, ExpireRows;
    MissingSurvives(s, e, t, m, now);
  }

  lemma LivePending(s: State, e: Execution, t: nat, m: nat, now: int)
    requires Inv(s) && Once(s) && Missing(s, e, t, m) && NoneExpires(s, now)
    ensures PendingAt(ExpireRows(s.db.rows, now), e, t, m) && UniqueKeys(ExpireRows(s.db.rows, now))
  {
    hide Inv, Once, Apply, ExpireRows, NoneExpires, Missing, PendingAt, UniqueKeys;
    StillMissing(s, e, t, m, now);
    ExpireForm(s, now);
    StepKeepsInv(s, Expire(now));
    OnceExpire(s, now);
    MissingPending(Swept(s, now), e, t, m);
    Keys(Swept(s, now));
  }

  lemma HeadsAre(rows: seq<Order>, e: Execution, t: nat, m: nat, bid: Option<nat>, ask: Option<nat>)
    requires PendingAt(rows, e, t, m) && UniqueKeys(rows) && rows[t].status == Active && rows[m].status == Active
    requires IsHead(rows, rows[t].market, Buy, bid) && IsHead(rows, rows[t].market, Sell, ask)
    ensures bid.Some? && ask.Some? && bid.value < |rows| && ask.value < |rows|
    ensures ChooseTakerMaker(rows[bid.value], rows[ask.value]) == Candidate(rows[t], rows[m])
  {
    hide Decided, Top, ChooseTakerMaker, UniqueKeys;
    SomeHeads(rows, rows[t].market, bid, ask, t, m);
    BestRange(rows, rows[t].market, bid.value, ask.value);
    hide IsBest;
    Repicked(rows, rows[t].market, bid.value, ask.value, e, t, m);
  }

  lemma BestRange(rows: seq<Order>, market: Market, b: nat, a: nat)
    requires IsBest(rows, market, Buy, b) && IsBest(rows, market, Sell, a)
    ensures b < |rows| && a < |rows|
  {
  }

  /** Whatever heads the next tick of the market reads, they are the two orders. */
  lemma PickedAgain(s: State, e: Execution, t: nat, m: nat, now: int, bid: Option<nat>, ask: Option<nat>)
    returns (s1: State)
    requires Inv(s) && Once(s) && Missing(s, e, t, m) && NoneExpires(s, now)
    requires Enabled(s, Acquire(0, s.db.rows[t].market, now, bid, ask))
    ensures s1 == Apply(s, Acquire(0, s.db.rows[t].market, now, bid, ask)) && Inv(s1) && Once(s1)
    ensures s1 == s.(db := s1.db, matchers := [Busy(Candidate(s.db.rows[t], s.db.rows[m]), Checking(now))])
            && s1.db.trades == s.db.trades
  {
    var (market, live) := (s.db.rows[t].market, ExpireRows(s.db.rows, now));
    s1 := Apply(s, Acquire(0, market, now, bid, ask));
    hide Inv, Once, ExpireRows, IsHead, IsBest, ChooseTakerMaker, NoneExpires, PendingAt, ReserveRows, UniqueKeys,
        Apply, AcquireTx;
    MissingSurvives(s, e, t, m, now);
    LivePending(s, e, t, m, now);
    assert IsHead(live, market, Buy, bid) && IsHead(live, market, Sell, ask);
    hide Enabled;
    HeadsAre(live, e, t, m, bid, ask);
    AcquireForm(s, 0, market, now, bid, ask);
    ExpireForm(s, now);
    StepKeepsInv(s, Acquire(0, market, now, bid, ask));
    OnceAcquire(s, 0, market, now, bid, ask);
  }

  lemma Keys(s: State)
    requires Inv(s)
    ensures UniqueKeys(s.db.rows)
  {
    hide RowOk, TradesOk, PhaseOk;
  }

  lemma SomeHeads(rows: seq<Order>, market: Market, bid: Option<nat>, ask: Option<nat>, t: nat, m: nat)
    requires IsHead(rows, market, Buy, bid) && IsHead(rows, market, Sell, ask) && t < |rows| && m < |rows|
    requires rows[t].side != rows[m].side && rows[t].market == rows[m].market == market
    requires rows[t].status == Active && rows[m].status == Active
    ensures bid.Some? && ask.Some?
  {
    hide IsBest;
  }

  lemma PairNow(s: State, e: Execution, t: nat, m: nat, now: int)
    requires Inv(s) && Once(s) && Missing(s, e, t, m) && NoneExpires(s, now)
    ensures var (c, d) := (Candidate(s.db.rows[t], s.db.rows[m]), Decide(Candidate(s.db.rows[t], s.db.rows[m]), now));
            d.Submit? && d.units.amount == e.units && d.fill == e.fill && MatchOf(c, e.units, e.fill) == e
  {
    MissingPending(s, e, t, m);
    MissingSurvives(s, e, t, m, now);
    hide Inv, Once, NoneExpires, Decided, Top, Decide;
    assert Snapshot(s.db.rows[t], s.db.rows[m]) == Candidate(s.db.rows[t], s.db.rows[m]);
    DecidedNow(Candidate(s.db.rows[t], s.db.rows[m]), e.units, e.fill, now);
  }

  lemma RefusedNow(s: State, c: Candidate, units: int, fill: int)
    requires Inv(s) && Once(s) && s.matchers == [Busy(c, Submitting(units, fill))]
             && MatchOf(c, units, fill) in s.unrecorded
    ensures Refused(s.executions, c, units) && Reservations(s) && Enabled(s, Send(0, Delivered))
  {
    hide Inv, Once, Poised, Refused, Reservations, Top, Creation, Accounts, Pendings, PhaseOnce;
    OnceParts(s);
    PoisedNow(s);
    RefusedIff(s, c, units, fill);
  }

  /** Submitting an unrecorded match again is refused, and finalising then works. */
  lemma RefusedAgain(s: State, c: Candidate, units: int, fill: int)
    requires Inv(s) && Once(s) && s.matchers == [Busy(c, Submitting(units, fill))]
             && MatchOf(c, units, fill) in s.unrecorded
    ensures Enabled(s, Send(0, Delivered))
            && Apply(s, Send(0, Delivered)) == s.(matchers := [Busy(c, Recording(units, fill))])
    ensures FinalizeTx(s.db, c.taker.orderId, c.maker.orderId, c.maker.limitPrice, fill).Ok?
  {
    hide Inv, Once, Apply, Enabled, Refused, Reservations, FinalizeTx;
    RefusedNow(s, c, units, fill);
    SendRefused(s, c, units, fill);
    StepKeepsInv(s, Send(0, Delivered));
    StepKeepsReservations(s, Send(0, Delivered));
    var s1 := s.(matchers := [Busy(c, Recording(units, fill))]);
    RecordEnabled(s1, c, units, fill);
    HeldPairFinalizes(s1);
  }

  lemma RefusedThenRecorded(s: State, c: Candidate, units: int, fill: int) returns (s': State)
    requires Inv(s) && Once(s) && s.matchers == [Busy(c, Submitting(units, fill))]
             && MatchOf(c, units, fill) in s.unrecorded
    ensures var s1 := s.(matchers := [Busy(c, Recording(units, fill))]);
            && Enabled(s, Send(0, Delivered)) && Apply(s, Send(0, Delivered)) == s1
            && Enabled(s1, Record(0, true)) && Apply(s1, Record(0, true)) == s'
    ensures s' == s.(db := s'.db, matchers := [Idle], settled := s.settled + [MatchOf(c, units, fill)],
                     unrecorded := RemoveOne(s.unrecorded, MatchOf(c, units, fill)))
  {
    hide Inv, Once, Enabled, Apply, FinalizeTx, RemoveOne;
    RefusedAgain(s, c, units, fill);
    var s1 := s.(matchers := [Busy(c, Recording(units, fill))]);
    RecordSucceeds(s1, c, units, fill);
    s' := Apply(s1, Record(0, true));
  }

  lemma RecordEnabled(s: State, c: Candidate, units: int, fill: int)
    requires s.matchers == [Busy(c, Recording(units, fill))]
    ensures Enabled(s, Record(0, true))
  {
  }

  /** The missing trade is recorded by the next tick: however the reply was lost or finalising
      failed, once the two orders are back in the book any calm tick of their market picks exactly
      this pair, is refused by the chain, and records the match that is already there. Nothing more
      is executed. */
  lemma NextTickRecords(steps: seq<Step>, s: State, e: Execution, t: nat, m: nat, now: int, bid: Option<nat>,
      ask: Option<nat>) returns (s': State)
    requires CalmRun(Initial(1), steps, s) && Missing(s, e, t, m)
    requires var tick := Acquire(0, s.db.rows[t].market, now, bid, ask); Enabled(s, tick) && Calm(s, tick)
    ensures Run(s, [Acquire(0, s.db.rows[t].market, now, bid, ask), Check(0), Send(0, Delivered), Record(0, true)], s')
    ensures s'.matchers == [Idle] && s'.executions == s.executions
    ensures s'.settled == s.settled + [e] && s'.unrecorded == RemoveOne(s.unrecorded, e)
    ensures |s'.db.trades| == |s.db.trades| + 1
    ensures var r := s'.db.trades[|s.db.trades|]; r.taker == e.taker && r.maker == e.maker && r.size == e.fill
  {
    hide Inv, Once, Missing, Enabled, Calm, Run, RemoveOne;
    CalmRunsAreReady(steps, s);
    s' := TickRecords(s, e, t, m, now, bid, ask);
  }

  lemma TickRecords(s: State, e: Execution, t: nat, m: nat, now: int, bid: Option<nat>, ask: Option<nat>)
    returns (s': State)
    requires Inv(s) && Once(s) && Missing(s, e, t, m)
    requires var tick := Acquire(0, s.db.rows[t].market, now, bid, ask); Enabled(s, tick) && Calm(s, tick)
    ensures Run(s, [Acquire(0, s.db.rows[t].market, now, bid, ask), Check(0), Send(0, Delivered), Record(0, true)], s')
    ensures s'.matchers == [Idle] && s'.executions == s.executions
    ensures s'.settled == s.settled + [e] && s'.unrecorded == RemoveOne(s.unrecorded, e)
    ensures |s'.db.trades| == |s.db.trades| + 1
    ensures var r := s'.db.trades[|s.db.trades|]; r.taker == e.taker && r.maker == e.maker && r.size == e.fill
  {
    hide Inv, Once, Decide, Enabled, Apply, Run, RemoveOne, NoneExpires, Missing;
    MissingIs(s, e, t, m);
    var first := Acquire(0, s.db.rows[t].market, now, bid, ask);
    PairNow(s, e, t, m, now);
    var s1 := PickedAgain(s, e, t, m, now, bid, ask);
    hide Calm;
    s' := FinishTick(s1, Candidate(s.db.rows[t], s.db.rows[m]), e, now);
    StartTick(s, first, s1, s');
    NewTrade(s, [first, Check(0), Send(0, Delivered), Record(0, true)], s', e);
  }

  lemma MissingIs(s: State, e: Execution, t: nat, m: nat)
    requires Missing(s, e, t, m)
    ensures t < |s.db.rows| && m < |s.db.rows| && e in s.unrecorded
  {
  }

  lemma StartTick(s: State, first: Step, s1: State, s': State)
    requires Enabled(s, first) && s1 == Apply(s, first) && Run(s1, [Check(0), Send(0, Delivered), Record(0, true)], s')
    ensures Run(s, [first, Check(0), Send(0, Delivered), Record(0, true)], s')
  {
    var steps := [first, Check(0), Send(0, Delivered), Record(0, true)];
    assert steps[0] == first && steps[1..] == [Check(0), Send(0, Delivered), Record(0, true)];
    hide Enabled, Apply;
  }

  /** From the reservation on: check, refusal, recording. */
  lemma FinishTick(s1: State, c: Candidate, e: Execution, now: int) returns (s': State)
    requires Inv(s1) && Once(s1) && s1.matchers == [Busy(c, Checking(now))] && e in s1.unrecorded
    requires var d := Decide(c, now);
             d.Submit? && d.units.amount == e.units && d.fill == e.fill && MatchOf(c, e.units, e.fill) == e
    ensures Run(s1, [Check(0), Send(0, Delivered), Record(0, true)], s')
    ensures s' == s1.(db := s'.db, matchers := [Idle], settled := s1.settled + [e],
            unrecorded := RemoveOne(s1.unrecorded, e))
  {
    hide Inv, Once, Decide, Enabled, Apply, Run, RemoveOne;
    CheckSubmits(s1, c, now, Decide(c, now).units, e.fill);
    var s2 := s1.(matchers := [Busy(c, Submitting(e.units, e.fill))]);
    StepKeepsInv(s1, Check(0));
    OnceCheck(s1, 0);
    var s3 := s2.(matchers := [Busy(c, Recording(e.units, e.fill))]);
    s' := RefusedThenRecorded(s2, c, e.units, e.fill);
    ThreeSteps(s1, Check(0), s2, Send(0, Delivered), s3, Record(0, true), s');
  }

  lemma NewTrade(s: State, steps: seq<Step>, s': State, e: Execution)
    requires Inv(s) && Run(s, steps, s') && s'.settled == s.settled + [e]
    ensures |s'.db.trades| == |s.db.trades| + 1
    ensures var r := s'.db.trades[|s.db.trades|]; r.taker == e.taker && r.maker == e.maker && r.size == e.fill
  {
    hide Run, Inv;
    RunKeepsInv(s, steps, s');
    MirrorsNow(s);
    MirrorsNow(s');
  }

  // ---------------------------------------------------------------- no match happens twice

  predicate SamePair(e: Execution, f: Execution) { e.taker == f.taker && e.maker == f.maker }

  /** No two entries are matches of the same taker with the same maker. */
  predicate NoRepeats(es: seq<Execution>) { forall i, j | 0 <= i < j < |es| :: !SamePair(es[i], es[j]) }

  /** One of the match's orders is filled, so the pair can never match again. */
  ghost predicate Spent(rows: seq<Order>, e: Execution) {
    exists i :: 0 <= i < |rows| && e.Names(rows[i].orderId) && rows[i].status == Filled
  }

  ghost predicate SettledOnce(rows: seq<Order>, settled: seq<Execution>) {
    NoRepeats(settled) && forall j | 0 <= j < |settled| :: Spent(rows, settled[j])
  }

  lemma SpentStays(rows: seq<Order>, rows': seq<Order>, settled: seq<Execution>)
    requires SettledOnce(rows, settled) && RowsEvolve(rows, rows')
    ensures SettledOnce(rows', settled)
  {
    forall j | 0 <= j < |settled| ensures Spent(rows', settled[j]) {
      var i :| 0 <= i < |rows| && settled[j].Names(rows[i].orderId) && rows[i].status == Filled;
      assert RowEvolves(rows[i], rows'[i]);
    }
  }

  lemma NewlySpent(rows: seq<Order>, t: nat, m: nat, settled: seq<Execution>, e: Execution)
    requires UniqueKeys(rows) && SettledOnce(rows, settled) && t < |rows| && m < |rows| && t != m && e.fill > 0
    requires rows[t].orderId == e.taker && rows[m].orderId == e.maker && rows[t].status == Matching
             && rows[m].status == Matching
    requires rows[t].filled + e.fill == rows[t].desired || rows[m].filled + e.fill == rows[m].desired
    ensures SettledOnce(rows[t := FilledRow(rows[t], e.fill)][m := FilledRow(rows[m], e.fill)], settled + [e])
  {
    var rows' := rows[t := FilledRow(rows[t], e.fill)][m := FilledRow(rows[m], e.fill)];
    FillsEvolve(rows, t, m, e.fill);
    SpentStays(rows, rows', settled);
    forall j | 0 <= j < |settled| ensures !SamePair(settled[j], e) {
      var i :| 0 <= i < |rows| && settled[j].Names(rows[i].orderId) && rows[i].status == Filled;
      assert i != t && i != m;
    }
    assert rows'[t].status == Filled || rows'[m].status == Filled;
    assert Spent(rows', e) by {
      assert e.Names(rows'[t].orderId) && e.Names(rows'[m].orderId);
    }
  }

  /** A recording uses up one of its two orders. */
  lemma RecordingSpends(s: State) returns (t: nat, m: nat)
    requires |s.matchers| == 1 && Enabled(s, Record(0, true)) && Apply(s, Record(0, true)).matchers[0].Idle? && Inv(s)
             && Once(s)
    ensures t < |s.db.rows| && m < |s.db.rows| && t != m
    ensures var (rows, e) := (s.db.rows,
            MatchOf(s.matchers[0].pair, s.matchers[0].stage.units, s.matchers[0].stage.fill));
            && rows[t].orderId == e.taker && rows[m].orderId == e.maker && rows[t].status == Matching
              && rows[m].status == Matching
            && e.fill > 0 && (rows[t].filled + e.fill == rows[t].desired || rows[m].filled + e.fill == rows[m].desired)
            && Apply(s, Record(0, true)).db.rows == rows[t := FilledRow(rows[t], e.fill)][m := FilledRow(rows[m],
              e.fill)]
  {
    var (c, g) := (s.matchers[0].pair, s.matchers[0].stage);
    t, m := RecordEffect(s, 0);
    hide Inv, Once, Apply, HeldRow, UniqueKeys, Decided, Poised, Top;
    PoisedNow(s);
    HeldOfPoised(s.db.rows, c, g.units, g.fill, s.unrecorded);
    FillUsesUpOne(c);
    Keys(s);
    HeldAt(s.db.rows, c.taker, t);
    HeldAt(s.db.rows, c.maker, m);
  }

  lemma SettledSame(s: State, step: Step)
    requires Enabled(s, step) && !step.Record? && !step.RecordUnheard?
    ensures Apply(s, step).settled == s.settled
  {
    hide IsHead, AcquireTx, FinalizeTx, Refused, Decide, ExpireRows, CancelTx, CreateTx, ReleaseRows;
  }

  lemma RecordKeepsSettled(s: State, k: nat, dbOk: bool)
    requires Inv(s) && Once(s) && SettledOnce(s.db.rows, s.settled) && Enabled(s, Record(k, dbOk))
    ensures SettledOnce(Apply(s, Record(k, dbOk)).db.rows, Apply(s, Record(k, dbOk)).settled)
  {
    hide Inv, Once, Apply, SettledOnce, FilledRow, UniqueKeys, RemoveOne, Reservations, Creation, Accounts, Pendings,
        PhaseOnce;
    OnceParts(s);
    var (c, g) := (s.matchers[0].pair, s.matchers[0].stage);
    RecordForm(s, k, dbOk);
    assert k == 0 && (Apply(s, Record(k, dbOk)).matchers[0].Idle? ==> dbOk);
    hide Enabled;
    if Apply(s, Record(k, dbOk)).matchers[0].Idle? {
      var t, m := RecordingSpends(s);
      Keys(s);
      NewlySpent(s.db.rows, t, m, s.settled, MatchOf(c, g.units, g.fill));
    }
  }

  lemma StepKeepsSettled(s: State, step: Step)
    requires Inv(s) && Once(s) && SettledOnce(s.db.rows, s.settled) && Enabled(s, step)
    ensures SettledOnce(Apply(s, step).db.rows, Apply(s, step).settled)
  {
    hide Inv, Once, Apply, SettledOnce, Reservations, Creation, Accounts, Pendings, PhaseOnce;
    if step.Record? {
      RecordKeepsSettled(s, step.k, step.dbOk);
    } else if step.RecordUnheard? {
      OnceParts(s);
      UnheardForm(s, step.k);
      RecordKeepsSettled(s, step.k, true);
    } else {
      SettledSame(s, step);
      StepMovesStatus(s, step);
      SpentStays(s.db.rows, Apply(s, step).db.rows, s.settled);
    }
  }

  lemma {:induction false} RunKeepsSettled(s: State, steps: seq<Step>, s': State)
    requires Inv(s) && Once(s) && SettledOnce(s.db.rows, s.settled) && CalmRun(s, steps, s')
    ensures Inv(s') && Once(s') && SettledOnce(s'.db.rows, s'.settled)
    decreases |steps|
  {
    if steps != [] {
      hide Apply, Inv, Enabled, Once, Calm, SettledOnce;
      StepKeepsInv(s, steps[0]);
      StepKeepsOnce(s, steps[0]);
      StepKeepsSettled(s, steps[0]);
      RunKeepsSettled(Apply(s, steps[0]), steps[1..], s');
    }
  }

  lemma PendingIsUnspent(rows: seq<Order>, e: Execution, f: Execution)
    requires UniqueKeys(rows) && Pending(rows, e) && Spent(rows, f)
    ensures !SamePair(f, e)
  {
    hide Decided, Top;
    var t: nat, m: nat :| PendingAt(rows, e, t, m);
    var i :| 0 <= i < |rows| && f.Names(rows[i].orderId) && rows[i].status == Filled;
    assert i != t && i != m;
  }

  lemma TogetherNoRepeats(rows: seq<Order>, settled: seq<Execution>, unrecorded: seq<Execution>)
    requires UniqueKeys(rows) && SettledOnce(rows, settled) && Pendings(rows, unrecorded)
    ensures NoRepeats(settled + unrecorded)
  {
    hide Spent, Pending, UniqueKeys;
    var (all, n) := (settled + unrecorded, |settled|);
    forall i, j | 0 <= i < j < |all| ensures !SamePair(all[i], all[j]) {
      if j < n {
        assert !SamePair(settled[i], settled[j]);
      } else if n <= i {
        assert Apart(unrecorded[i - n], unrecorded[j - n]);
      } else {
        assert Spent(rows, settled[i]) && Pending(rows, unrecorded[j - n]);
        PendingIsUnspent(rows, unrecorded[j - n], settled[i]);
      }
    }
  }

  lemma {:induction false} AtMostOnce(es: seq<Execution>, e: Execution)
    requires NoRepeats(es)
    ensures multiset(es)[e] <= 1
  {
    if es != [] {
      assert es == [es[0]] + es[1..];
      AtMostOnce(es[1..], e);
      if es[0] == e { assert forall k | 0 <= k < |es[1..]| :: es[1..][k] == es[k + 1] != e; }
    }
  }

  lemma TwiceCounts(es: seq<Execution>, i: nat, j: nat)
    requires i < j < |es| && es[i] == es[j]
    ensures multiset(es)[es[i]] >= 2
  {
    assert es == es[..j] + es[j..] && es[..j][i] == es[i] && es[j..][0] == es[i];
    assert es[i] in multiset(es[..j]) && es[i] in multiset(es[j..]);
  }

  lemma RearrangedNoRepeats(es: seq<Execution>, fs: seq<Execution>)
    requires NoRepeats(es) && multiset(es) == multiset(fs)
    ensures NoRepeats(fs)
  {
    forall i, j | 0 <= i < j < |fs| ensures !SamePair(fs[i], fs[j]) {
      if fs[i] == fs[j] {
        TwiceCounts(fs, i, j);
        AtMostOnce(es, fs[i]);
      } else {
        assert fs[i] in multiset(es) && fs[j] in multiset(es);
        var p :| 0 <= p < |es| && es[p] == fs[i];
        var q :| 0 <= q < |es| && es[q] == fs[j];
        assert if p < q then !SamePair(es[p], es[q]) else !SamePair(es[q], es[p]);
      }
    }
  }

  lemma ChainNoRepeats(s: State)
    requires Inv(s) && Once(s) && SettledOnce(s.db.rows, s.settled)
    ensures multiset(s.executions) == multiset(s.settled) + multiset(s.unrecorded) && NoRepeats(s.executions)
  {
    Keys(s);
    hide Inv, Reservations, SettledOnce, Pendings, PhaseOnce, Creation, UniqueKeys, NoRepeats, Used;
    TogetherNoRepeats(s.db.rows, s.settled, s.unrecorded);
    RearrangedNoRepeats(s.settled + s.unrecorded, s.executions);
  }

  /** Exactly-once recording. After every calm run of one matcher, whatever replies were lost and
      whatever store calls failed, the chain has matched no pair twice, and the matches on chain are
      exactly those with a trade row and those still unrecorded: no trade is recorded twice or
      without an execution. */
  lemma ExactlyOnceRecording(steps: seq<Step>, s: State)
    requires CalmRun(Initial(1), steps, s)
    ensures Mirrors(s.db.trades, s.settled)
    ensures multiset(s.executions) == multiset(s.settled) + multiset(s.unrecorded)
    ensures NoRepeats(s.executions)
  {
    assert SettledOnce(Initial(1).db.rows, Initial(1).settled);
    hide Inv, Once, CalmRun, SettledOnce, NoRepeats, Mirrors;
    InitialInv(1);
    InitialOnce();
    RunKeepsSettled(Initial(1), steps, s);
    MirrorsNow(s);
    ChainNoRepeats(s);
  }

  /** Along every calm run the chain refuses a submission exactly when that very match is already
      executed and has no trade row. */
  lemma RefusalMeansExecuted(steps: seq<Step>, s: State)
    requires CalmRun(Initial(1), steps, s)
    ensures |s.matchers| == 1
    ensures s.matchers[0].Busy? && s.matchers[0].stage.Submitting? ==>
              var (c, g) := (s.matchers[0].pair, s.matchers[0].stage);
              Refused(s.executions, c, g.units) <==> MatchOf(c, g.units, g.fill) in s.unrecorded
  {
    hide CalmRun, Inv, Once, Reservations, Creation, Accounts, Pendings, PhaseOnce, Refused, Poised, Top;
    CalmRunsAreReady(steps, s);
    OnceParts(s);
    if s.matchers[0].Busy? && s.matchers[0].stage.Submitting? {
      PoisedNow(s);
      RefusedIff(s, s.matchers[0].pair, s.matchers[0].stage.units, s.matchers[0].stage.fill);
    }
  }

  lemma CalmRunsAreReady(steps: seq<Step>, s: State)
    requires CalmRun(Initial(1), steps, s)
    ensures Inv(s) && Once(s)
  {
    hide Inv, Once, CalmRun;
    InitialInv(1);
    InitialOnce();
    RunKeepsOnce(Initial(1), steps, s);
  }
}

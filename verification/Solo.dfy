/** With a single matcher a reservation is exclusive: nobody moves the two rows until the matcher
    itself finalises or releases them. */
module Solo {
  import opened MatchRules
  import opened Orders
  import opened Protocol
  import opened Runs
  import opened Wrappers

  /** The row is reserved and otherwise exactly as the matcher read it. */
  predicate HeldRow(rows: seq<Order>, o: Order) {
    exists i :: 0 <= i < |rows| && rows[i] == o.(status := Matching)
  }

  predicate HeldPair(rows: seq<Order>, c: Candidate) { HeldRow(rows, c.taker) && HeldRow(rows, c.maker) }

  predicate StageKnows(c: Candidate, stage: Stage) {
    && (stage.Submitting? ==> Tradeable(c) && stage.fill == FillOf(c))
    && (stage.Recording? ==> Tradeable(c) && stage.fill == FillOf(c))
  }

  predicate Reservations(s: State) {
    && |s.matchers| == 1
    && (s.matchers[0].Busy? ==>
          && StageKnows(s.matchers[0].pair, s.matchers[0].stage)
          && (s.matchers[0].stage.Releasing? || HeldPair(s.db.rows, s.matchers[0].pair)))
  }

  /** Steps of others leave reserved rows alone. */
  predicate KeepsReserved(rows: seq<Order>, rows': seq<Order>) {
    |rows| <= |rows'| && forall i | 0 <= i < |rows| && rows[i].status == Matching :: rows'[i] == rows[i]
  }

  lemma KeepsHeld(rows: seq<Order>, rows': seq<Order>, o: Order)
    requires HeldRow(rows, o) && KeepsReserved(rows, rows')
    ensures HeldRow(rows', o)
  {
    var i :| 0 <= i < |rows| && rows[i] == o.(status := Matching);
    assert rows'[i] == o.(status := Matching);
  }

  lemma ApiKeepsReserved(s: State, step: Step)
    requires Enabled(s, step) && (step.Create? || step.Cancel? || step.Expire?)
    ensures KeepsReserved(s.db.rows, Apply(s, step).db.rows) && Apply(s, step).matchers == s.matchers
  {
    hide Clashes, Cancellable;
  }

  lemma AcquireHolds(rows: seq<Order>, market: Market, now: int, bid: Option<nat>, ask: Option<nat>)
    requires IsHead(ExpireRows(rows, now), market, Buy, bid) && IsHead(ExpireRows(rows, now), market, Sell, ask)
    requires AcquireTx(rows, now, bid, ask).1.Some?
    ensures HeldPair(AcquireTx(rows, now, bid, ask).0, AcquireTx(rows, now, bid, ask).1.value)
  {
    var live := ExpireRows(rows, now);
    var (b, a) := (live[bid.value], live[ask.value]);
    var rows' := AcquireTx(rows, now, bid, ask).0;
    assert rows'[bid.value] == b.(status := Matching);
    assert rows'[ask.value] == a.(status := Matching);
  }

  lemma CheckKnows(c: Candidate, now: int)
    requires c.taker.side != c.maker.side
    ensures StageKnows(c, CheckStage(c, now))
  {
    hide Decide, Crosses;
    if Decide(c, now).Submit? { SubmitMeans(c, now); }
  }

  /** Reservation stability: no step of a run with one matcher disturbs a reserved pair before the
      matcher finalises it or starts to release it. */
  lemma StepKeepsReservations(s: State, step: Step)
    requires Inv(s) && Reservations(s) && Enabled(s, step)
    ensures Reservations(Apply(s, step))
  {
    hide RowOk, TradesOk, IsBest, AcquireTx, FinalizeTx, Refused, Decide, ExpireRows, Tradeable, FillOf, HeldRow,
        KeepsReserved, CancelTx, CreateTx, ReleaseRows;
    match step
    case Acquire(k, market, now, bid, ask) =>
      HeadInRange(ExpireRows(s.db.rows, now), market, Buy, bid);
      HeadInRange(ExpireRows(s.db.rows, now), market, Sell, ask);
      var pair := AcquireTx(s.db.rows, now, bid, ask).1;
      if pair.Some? { AcquireHolds(s.db.rows, market, now, bid, ask); }
    case Check(k) =>
      assert PhaseOk(s.matchers[0], s.born);
      CheckKnows(s.matchers[0].pair, s.matchers[0].stage.now);
    case Send(k, _) =>
    case Record(k, dbOk) =>
    case RecordUnheard(k) =>
    case Fail(k, dbOk) =>
    case LetGo(k, dbOk) =>
    case Crash(k) =>
    case _ =>
      ApiKeepsReserved(s, step);
      if s.matchers[0].Busy? && !s.matchers[0].stage.Releasing? {
        KeepsHeld(s.db.rows, Apply(s, step).db.rows, s.matchers[0].pair.taker);
        KeepsHeld(s.db.rows, Apply(s, step).db.rows, s.matchers[0].pair.maker);
      }
  }

  lemma {:induction false} RunKeepsReservations(s: State, steps: seq<Step>, s': State)
    requires Inv(s) && Reservations(s) && Run(s, steps, s')
    ensures Inv(s') && Reservations(s')
    decreases |steps|
  {
    if steps != [] {
      StepKeepsInv(s, steps[0]);
      StepKeepsReservations(s, steps[0]);
      hide Apply, Inv, Enabled, Reservations;
      RunKeepsReservations(Apply(s, steps[0]), steps[1..], s');
    }
  }

  /** The fill of a held pair fits both rows, so recording it cannot fail in the store. */
  lemma HeldPairFinalizes(s: State)
    requires Inv(s) && Reservations(s) && Enabled(s, Record(0, true))
    ensures var (c, fill) := (s.matchers[0].pair, s.matchers[0].stage.fill);
            FinalizeTx(s.db, c.taker.orderId, c.maker.orderId, c.maker.limitPrice, fill).Ok?
  {
    var (c, fill) := (s.matchers[0].pair, s.matchers[0].stage.fill);
    assert PhaseOk(s.matchers[0], s.born);
    hide RowOk, TradesOk, FinalizeTx, Executable;
    var t :| 0 <= t < |s.db.rows| && s.db.rows[t] == c.taker.(status := Matching);
    var m :| 0 <= m < |s.db.rows| && s.db.rows[m] == c.maker.(status := Matching);
    FinalizeIff(s.db, t, m, c.maker.limitPrice, fill);
  }

  /** In every reachable state of one matcher, from the reservation until it starts to release, both
      rows of its pair are still reserved and otherwise exactly as it read them. */
  lemma ReservedPairIsStable(steps: seq<Step>, s: State)
    requires Run(Initial(1), steps, s)
    ensures |s.matchers| == 1
    ensures s.matchers[0].Busy? && !s.matchers[0].stage.Releasing? ==> HeldPair(s.db.rows, s.matchers[0].pair)
  {
    assert Reservations(Initial(1));
    hide Inv, Run, HeldPair;
    InitialInv(1);
    RunKeepsReservations(Initial(1), steps, s);
  }

  lemma LoneMatcher(s: State)
    requires Reservations(s)
    ensures |s.matchers| == 1
  {
    hide HeldPair, StageKnows;
  }

  lemma RecordAdds(s: State)
    requires |s.matchers| == 1 && Enabled(s, Record(0, true))
    requires var (c, fill) := (s.matchers[0].pair, s.matchers[0].stage.fill);
             FinalizeTx(s.db, c.taker.orderId, c.maker.orderId, c.maker.limitPrice, fill).Ok?
    ensures Apply(s, Record(0, true)).matchers[0].Idle? && |Apply(s, Record(0, true)).db.trades| == |s.db.trades| + 1
  {
    hide ApplyFill;
  }

  /** After any run with one matcher, a finalise with a working database succeeds: the fill computed
      from the earlier snapshot is never an overfill, and neither order has left the reservation. */
  lemma FinalizeNeverFails(steps: seq<Step>, s: State)
    requires Run(Initial(1), steps, s) && Enabled(s, Record(0, true))
    ensures Apply(s, Record(0, true)).matchers[0].Idle?
    ensures |Apply(s, Record(0, true)).db.trades| == |s.db.trades| + 1
  {
    assert Reservations(Initial(1));
    hide Inv, Run, Reservations, Apply, FinalizeTx;
    InitialInv(1);
    RunKeepsReservations(Initial(1), steps, s);
    HeldPairFinalizes(s);
    LoneMatcher(s);
    RecordAdds(s);
  }
}

/** Exactly when a trade row stands for a match that happened, without assuming calm: along every run
    of one matcher whose orders are created unfilled. */
module Backing {
  import opened Arith
  import opened ExactlyOnce
  import opened MatchRules
  import opened Orders
  import opened Protocol
  import opened Recovery
  import opened Runs
  import opened Solo
  import opened Ticks
  import opened Wrappers

  predicate Unfilled(step: Step) { step.Create? ==> step.o.filled == 0 }

  ghost predicate UnfilledRun(s: State, steps: seq<Step>, s': State) {
    Run(s, steps, s') && forall i | 0 <= i < |steps| :: Unfilled(steps[i])
  }

  /** Every trade row has its match: the matches on chain are those recorded and those unrecorded. */
  ghost predicate Backed(s: State) {
    multiset(s.executions) == multiset(s.settled) + multiset(s.unrecorded)
  }

  /** The fill of the matches that name the order. */
  function FillSum(es: seq<Execution>, id: string): int {
    if es == [] then 0
    else FillSum(es[..|es| - 1], id) + if es[|es| - 1].Names(id) then es[|es| - 1].fill else 0
  }

  /** The fill is more than the unrecorded matches leave of the order. */
  predicate Exceeds(o: Order, unrecorded: seq<Execution>, fill: int) {
    o.filled + FillSum(unrecorded, o.orderId) + fill > o.desired
  }

  predicate AtSubmission(s: State) { |s.matchers| == 1 && s.matchers[0].Busy? && s.matchers[0].stage.Submitting? }

  /** The match that a matcher about to submit, or to record, stands for. */
  function OwnMatch(s: State): Execution
    requires |s.matchers| == 1 && s.matchers[0].Busy?
             && (s.matchers[0].stage.Submitting? || s.matchers[0].stage.Recording?)
  {
    MatchOf(s.matchers[0].pair, s.matchers[0].stage.units, s.matchers[0].stage.fill)
  }

  /** A delivered submission would be refused for somebody else's match. */
  predicate Misled(s: State) {
    && AtSubmission(s) && OwnMatch(s) !in s.unrecorded
    && var (c, fill) := (s.matchers[0].pair, s.matchers[0].stage.fill);
       Exceeds(c.taker, s.unrecorded, fill) || Exceeds(c.maker, s.unrecorded, fill)
  }

  // ---------------------------------------------------------------- sums over matches

  lemma {:induction false} FillPrepend(e: Execution, es: seq<Execution>, id: string)
    ensures FillSum([e] + es, id) == FillSum(es, id) + if e.Names(id) then e.fill else 0
  {
    if es == [] {
      assert [e] + es == [e] && [e][..0] == [];
    } else {
      assert ([e] + es)[..|es|] == [e] + es[..|es| - 1];
      FillPrepend(e, es[..|es| - 1], id);
    }
  }

  lemma {:induction false} FillRemove(es: seq<Execution>, e: Execution, id: string)
    requires e in es
    ensures FillSum(RemoveOne(es, e), id) == FillSum(es, id) - if e.Names(id) then e.fill else 0
  {
    assert es == [es[0]] + es[1..];
    FillPrepend(es[0], es[1..], id);
    if es[0] != e {
      FillRemove(es[1..], e, id);
      FillPrepend(es[0], RemoveOne(es[1..], e), id);
    }
  }

  /** Both sums see only which matches there are. */
  lemma {:induction false} SumsByMultiset(es: seq<Execution>, fs: seq<Execution>, id: string)
    requires multiset(es) == multiset(fs)
    ensures Used(es, id) == Used(fs, id) && FillSum(es, id) == FillSum(fs, id)
    decreases |es|
  {
    if es == [] {
      assert |fs| == |multiset(fs)| == 0;
    } else {
      var n := |es| - 1;
      assert es == es[..n] + [es[n]];
      assert es[n] in multiset(fs);
      RemoveOneFacts(fs, es[n]);
      SumsByMultiset(es[..n], RemoveOne(fs, es[n]), id);
      UsedRemove(fs, es[n], id);
      FillRemove(fs, es[n], id);
    }
  }

  lemma {:induction false} SumsConcat(es: seq<Execution>, fs: seq<Execution>, id: string)
    ensures Used(es + fs, id) == Used(es, id) + Used(fs, id)
            && FillSum(es + fs, id) == FillSum(es, id) + FillSum(fs, id)
    decreases |fs|
  {
    if fs == [] {
      assert es + fs == es;
    } else {
      var n := |fs| - 1;
      assert (es + fs)[..|es| + n] == es + fs[..n];
      SumsConcat(es, fs[..n], id);
    }
  }

  lemma BackedSums(s: State, id: string)
    requires Backed(s)
    ensures Used(s.executions, id) == Used(s.settled, id) + Used(s.unrecorded, id)
    ensures FillSum(s.executions, id) == FillSum(s.settled, id) + FillSum(s.unrecorded, id)
  {
    hide Used, FillSum;
    SumsByMultiset(s.executions, s.settled + s.unrecorded, id);
    SumsConcat(s.settled, s.unrecorded, id);
  }

  // ---------------------------------------------------------------- what every such run keeps

  ghost predicate BornUnfilled(born: map<string, Order>) { forall id | id in born :: born[id].filled == 0 }

  /** A match that some pair of created orders could make. */
  ghost predicate Possible(e: Execution, born: map<string, Order>) {
    e.taker in born && e.maker in born && Executable(Candidate(born[e.taker], born[e.maker]), e.units, e.fill)
  }

  ghost predicate AllPossible(es: seq<Execution>, born: map<string, Order>) {
    forall i | 0 <= i < |es| :: Possible(es[i], born)
  }

  /** One matcher, its reservation held, orders born unfilled, unrecorded matches possible ones. */
  ghost predicate Plain(s: State) {
    Inv(s) && Reservations(s) && BornUnfilled(s.born) && AllPossible(s.unrecorded, s.born)
  }

  lemma PlainParts(s: State)
    requires Plain(s)
    ensures Inv(s) && Reservations(s) && |s.matchers| == 1
  {
    hide Inv, HeldPair, StageKnows;
  }

  /** A pair decided on is a possible match of the orders as created. */
  lemma DecidedIsPossible(s: State)
    requires Inv(s) && AtSubmission(s)
    ensures Possible(OwnMatch(s), s.born)
  {
    assert PhaseOk(s.matchers[0], s.born);
    var c := s.matchers[0].pair;
    hide RowsOk, TradesOk, SignedAmount;
    SignedByAction(c.taker, s.born[c.taker.orderId]);
    SignedByAction(c.maker, s.born[c.maker.orderId]);
  }

  lemma PossibleGrows(es: seq<Execution>, born: map<string, Order>, o: Order)
    requires AllPossible(es, born) && o.orderId !in born
    ensures AllPossible(es, born[o.orderId := o])
  {
    hide Executable;
  }

  lemma PossibleLess(es: seq<Execution>, e: Execution, born: map<string, Order>)
    requires AllPossible(es, born)
    ensures AllPossible(RemoveOne(es, e), born)
  {
    hide Possible;
    if e in es {
      RemoveOneFacts(es, e);
      var less := RemoveOne(es, e);
      forall i | 0 <= i < |less| ensures Possible(less[i], born) {
        assert less[i] in es;
      }
    } else {
      RemoveAbsent(es, e);
    }
  }

  lemma {:induction false} RemoveAbsent(es: seq<Execution>, e: Execution)
    requires e !in es
    ensures RemoveOne(es, e) == es
  {
    if es != [] {
      RemoveAbsent(es[1..], e);
      assert es == [es[0]] + es[1..];
    }
  }

  /** Only submitting and recording touch the three lists of matches. */
  lemma HistoryStays(s: State, step: Step)
    requires Enabled(s, step) && !step.Send? && !step.Record? && !step.RecordUnheard?
    ensures var s' := Apply(s, step);
            s'.executions == s.executions && s'.settled == s.settled && s'.unrecorded == s.unrecorded
    ensures !step.Create? ==> Apply(s, step).born == s.born
  {
    hide IsHead, AcquireTx, FinalizeTx, Refused, Decide, ExpireRows, CancelTx, CreateTx, ReleaseRows;
  }

  lemma PlainCreate(s: State, o: Order)
    requires Plain(s) && o.filled == 0 && Enabled(s, Create(o))
    ensures var born := Apply(s, Create(o)).born; BornUnfilled(born) && AllPossible(s.unrecorded, born)
  {
    hide RowOk, TradesOk, PhaseOk, Reservations, Possible;
    if !Clashes(s.db.rows, o) {
      assert o.orderId in s.born ==> HasId(s.db.rows, o.orderId);
      PossibleGrows(s.unrecorded, s.born, o.(status := Active));
    }
  }

  lemma PlainSend(s: State, k: nat, transport: Transport)
    requires Plain(s) && Enabled(s, Send(k, transport))
    ensures var s' := Apply(s, Send(k, transport)); s'.born == s.born && AllPossible(s'.unrecorded, s.born)
  {
    hide Plain, Inv, Reservations, Apply, Refused, AllPossible, Possible;
    PlainParts(s);
    PlainList(s);
    SendForm(s, k, transport);
    DecidedIsPossible(s);
    PossibleMore(s.unrecorded, OwnMatch(s), s.born);
  }

  lemma PlainList(s: State)
    requires Plain(s)
    ensures AllPossible(s.unrecorded, s.born) && BornUnfilled(s.born)
  {
    hide Inv, Reservations, AllPossible;
  }

  lemma PossibleMore(es: seq<Execution>, e: Execution, born: map<string, Order>)
    requires AllPossible(es, born) && Possible(e, born)
    ensures AllPossible(es + [e], born)
  {
    hide Possible;
  }

  lemma PlainRecord(s: State, k: nat, dbOk: bool)
    requires Plain(s) && Enabled(s, Record(k, dbOk))
    ensures var s' := Apply(s, Record(k, dbOk)); s'.born == s.born && AllPossible(s'.unrecorded, s.born)
  {
    PlainParts(s);
    hide Inv, Reservations, Apply, Possible;
    RecordForm(s, k, dbOk);
    PossibleLess(s.unrecorded, OwnMatch(s), s.born);
  }

  lemma StepKeepsPlain(s: State, step: Step)
    requires Plain(s) && Enabled(s, step) && Unfilled(step)
    ensures Plain(Apply(s, step))
  {
    PlainParts(s);
    hide Inv, Reservations, Apply, AllPossible, BornUnfilled;
    StepKeepsInv(s, step);
    StepKeepsReservations(s, step);
    match step
    case Create(o) => PlainCreate(s, o); HistoryStays(s, step);
    case Send(k, transport) => PlainSend(s, k, transport);
    case Record(k, dbOk) => PlainRecord(s, k, dbOk);
    case RecordUnheard(k) => UnheardForm(s, k); PlainRecord(s, k, true);
    case _ => HistoryStays(s, step);
  }

  lemma {:induction false} RunKeepsPlain(s: State, steps: seq<Step>, s': State)
    requires Plain(s) && UnfilledRun(s, steps, s')
    ensures Plain(s')
    decreases |steps|
  {
    if steps != [] {
      hide Apply, Enabled, Plain, Unfilled;
      assert Unfilled(steps[0]);
      StepKeepsPlain(s, steps[0]);
      assert forall i | 0 <= i < |steps[1..]| :: steps[1..][i] == steps[i + 1];
      RunKeepsPlain(Apply(s, steps[0]), steps[1..], s');
    }
  }

  lemma InitialPlain()
    ensures Plain(Initial(1)) && Backed(Initial(1))
  {
    InitialInv(1);
  }

  // ---------------------------------------------------------------- the cap, exactly

  /** Used units stand to the signed amount as fills stand to the desired amount. */
  lemma {:induction false} PossibleShare(es: seq<Execution>, born: map<string, Order>, id: string)
    requires AllPossible(es, born) && id in born && born[id].desired > 0
    ensures InProportion(Used(es, id), SignedAmount(born[id]), FillSum(es, id), born[id].desired)
  {
    hide InProportion, SignedAmount, Possible;
    if es == [] {
      NoProportion(SignedAmount(born[id]), born[id].desired);
    } else {
      var n := |es| - 1;
      assert Possible(es[n], born);
      PossibleShare(es[..n], born, id);
      if es[n].Names(id) {
        OneShare(es[n], born, id);
        AddProportions(Used(es[..n], id), es[n].units, SignedAmount(born[id]), FillSum(es[..n], id), es[n].fill,
          born[id].desired);
      }
    }
  }

  lemma OneShare(e: Execution, born: map<string, Order>, id: string)
    requires Possible(e, born) && id in born && e.Names(id)
    ensures InProportion(e.units, SignedAmount(born[id]), e.fill, born[id].desired)
  {
    hide SignedAmount, Crosses;
  }

  lemma CapByFills(settled: int, open: int, units: int, filled: int, pending: int, fill: int, desired: int, signed: int)
    requires InProportion(settled, signed, filled, desired) && InProportion(open, signed, pending, desired)
    requires InProportion(units, signed, fill, desired) && desired > 0 && signed > 0
    ensures settled + open + units > signed <==> filled + pending + fill > desired
  {
    var (u, f) := (settled + open + units, filled + pending + fill);
    assert u * desired == f * signed;
    if u > signed && f <= desired { MulMono(signed + 1, u, desired); MulMono(f, desired, signed); }
    if u <= signed && f > desired { MulMono(u, signed, desired); MulMono(desired + 1, f, signed); }
  }

  lemma SignedPositive(units: int, signed: int, fill: int, desired: int)
    requires InProportion(units, signed, fill, desired) && units > 0 && fill > 0 && desired > 0
    ensures signed > 0
  {
    MulMono(1, units, desired);
    if signed <= 0 { MulMono(signed, 0, fill); }
  }

  /** A held order's row, as the invariant sees it. */
  lemma HeldShare(s: State, o: Order)
    requires Inv(s) && BornUnfilled(s.born) && AllPossible(s.unrecorded, s.born) && HeldRow(s.db.rows, o)
    ensures o.desired > 0
    ensures InProportion(Used(s.settled, o.orderId), SignedAmount(o), o.filled, o.desired)
    ensures InProportion(Used(s.unrecorded, o.orderId), SignedAmount(o), FillSum(s.unrecorded, o.orderId), o.desired)
  {
    var i :| 0 <= i < |s.db.rows| && s.db.rows[i] == o.(status := Matching);
    hide Inv, BornUnfilled, AllPossible, InProportion, RowOk, TradesOk, SignedAmount;
    InvRow(s, i);
    RowShare(s.db.rows[i], s.born, s.db.trades, s.settled, s.unrecorded);
    SignedByAction(o, s.db.rows[i]);
  }

  lemma RowShare(o: Order, born: map<string, Order>, trades: seq<Trade>, settled: seq<Execution>,
      unrecorded: seq<Execution>)
    requires RowOk(o, born, trades) && TradesOk(trades, settled, born) && BornUnfilled(born)
             && AllPossible(unrecorded, born)
    ensures o.desired > 0
    ensures InProportion(Used(settled, o.orderId), SignedAmount(o), o.filled, o.desired)
    ensures InProportion(Used(unrecorded, o.orderId), SignedAmount(o), FillSum(unrecorded, o.orderId), o.desired)
  {
    hide TradesOk, Used, SignedAmount, TradeVolume, AllPossible, FillSum;
    OrderBudget(o, born, trades, settled);
    SignedByAction(o, born[o.orderId]);
    PossibleShare(unrecorded, born, o.orderId);
  }

  lemma CapExact(s: State, o: Order, units: int, fill: int)
    requires Plain(s) && Backed(s) && HeldRow(s.db.rows, o) && Proportional(o, fill, units) && units > 0 && fill > 0
    ensures Used(s.executions, o.orderId) + units > SignedAmount(o) <==> Exceeds(o, s.unrecorded, fill)
  {
    hide Inv, Reservations, Used, FillSum, SignedAmount, HeldRow, AllPossible, BornUnfilled, InProportion;
    HeldShare(s, o);
    BackedSums(s, o.orderId);
    assert InProportion(units, SignedAmount(o), fill, o.desired) by { ProportionIs(o, fill, units); }
    SignedPositive(units, SignedAmount(o), fill, o.desired);
    CapByFills(Used(s.settled, o.orderId), Used(s.unrecorded, o.orderId), units, o.filled,
      FillSum(s.unrecorded, o.orderId), fill, o.desired, SignedAmount(o));
  }

  lemma ProportionIs(o: Order, fill: int, units: int)
    requires Proportional(o, fill, units)
    ensures InProportion(units, SignedAmount(o), fill, o.desired)
  {
    hide SignedAmount;
  }

  /** The chain refuses a submission exactly when its fill exceeds what the unrecorded matches leave
      of one of the two orders. */
  lemma RefusedExactly(s: State)
    requires Plain(s) && Backed(s) && AtSubmission(s)
    ensures var (c, g) := (s.matchers[0].pair, s.matchers[0].stage);
            Refused(s.executions, c, g.units)
            <==> Exceeds(c.taker, s.unrecorded, g.fill) || Exceeds(c.maker, s.unrecorded, g.fill)
  {
    var (c, g) := (s.matchers[0].pair, s.matchers[0].stage);
    AtSubmissionFacts(s);
    hide Plain, Backed, Used, SignedAmount, HeldRow, Proportional, Exceeds;
    CapExact(s, c.taker, g.units, g.fill);
    CapExact(s, c.maker, g.units, g.fill);
  }

  lemma AtSubmissionFacts(s: State)
    requires Plain(s) && AtSubmission(s)
    ensures var (c, g) := (s.matchers[0].pair, s.matchers[0].stage);
            && HeldPair(s.db.rows, c) && g.units > 0 && g.fill > 0
            && Proportional(c.taker, g.fill, g.units) && Proportional(c.maker, g.fill, g.units)
  {
    assert PhaseOk(s.matchers[0], s.born);
    hide RowsOk, TradesOk, HeldRow, Proportional, Tradeable, FillOf, PairOk, AllPossible;
  }

  // ---------------------------------------------------------------- backing, step by step

  /** A matcher about to record has its match on chain and unrecorded. */
  ghost predicate RecordsOwn(s: State) {
    |s.matchers| == 1 && s.matchers[0].Busy? && s.matchers[0].stage.Recording? ==> OwnMatch(s) in s.unrecorded
  }

  /** Delivering a submission leads to a recording of a match that is on chain and unrecorded, unless
      the matcher is misled, and then it leads to one that is not. */
  lemma DeliveredRecordsOwn(s: State)
    requires Plain(s) && Backed(s) && AtSubmission(s) && Enabled(s, Send(0, Delivered))
    ensures var s1 := Apply(s, Send(0, Delivered));
            && s1.matchers == [Busy(s.matchers[0].pair, Recording(s.matchers[0].stage.units, s.matchers[0].stage.fill))]
            && Backed(s1) && (OwnMatch(s) in s1.unrecorded <==> !Misled(s))
  {
    hide Plain, Apply, Refused, Exceeds, Enabled;
    RefusedExactly(s);
    SendForm(s, 0, Delivered);
    assert multiset(s.executions + [OwnMatch(s)]) == multiset(s.executions) + multiset{OwnMatch(s)};
    assert multiset(s.unrecorded + [OwnMatch(s)]) == multiset(s.unrecorded) + multiset{OwnMatch(s)};
  }

  /** A recording keeps the books balanced exactly when its match is on chain and unrecorded. */
  lemma RecordBacksIff(s: State)
    requires |s.matchers| == 1 && Enabled(s, Record(0, true)) && Backed(s)
             && Apply(s, Record(0, true)).matchers[0].Idle?
    ensures Backed(Apply(s, Record(0, true))) <==> OwnMatch(s) in s.unrecorded
    ensures Surplus(Apply(s, Record(0, true))) == if OwnMatch(s) in s.unrecorded then 0 else 1
  {
    hide Apply;
    var e := OwnMatch(s);
    RecordForm(s, 0, true);
    BackedSurplus(s);
    assert multiset(s.settled + [e]) == multiset(s.settled) + multiset{e};
    if e in s.unrecorded {
      RemoveOneFacts(s.unrecorded, e);
    } else {
      RemoveAbsent(s.unrecorded, e);
      MoreSettled(s, e);
    }
  }

  lemma MoreSettled(s: State, e: Execution)
    requires Backed(s)
    ensures multiset(s.executions) != multiset(s.settled + [e]) + multiset(s.unrecorded)
  {
    assert |multiset(s.executions)| == |s.settled| + |s.unrecorded|;
    assert |multiset(s.settled + [e]) + multiset(s.unrecorded)| == |s.settled| + 1 + |s.unrecorded|;
  }

  ghost predicate Balanced(s: State) { Plain(s) && Backed(s) && RecordsOwn(s) }

  lemma BothGrow(ex: seq<Execution>, st: seq<Execution>, un: seq<Execution>, e: Execution)
    requires multiset(ex) == multiset(st) + multiset(un)
    ensures multiset(ex + [e]) == multiset(st) + multiset(un + [e])
  {
    assert multiset(ex + [e]) == multiset(ex) + multiset{e} && multiset(un + [e]) == multiset(un) + multiset{e};
  }

  lemma BalancedSend(s: State, k: nat, transport: Transport)
    requires Balanced(s) && Enabled(s, Send(k, transport)) && (transport == Delivered ==> !Misled(s))
    ensures Backed(Apply(s, Send(k, transport))) && RecordsOwn(Apply(s, Send(k, transport)))
  {
    hide Plain, Apply, Refused, Misled;
    PlainParts(s);
    if transport == Delivered {
      hide Backed, Enabled;
      DeliveredRecordsOwn(s);
    } else {
      SendForm(s, k, transport);
      BothGrow(s.executions, s.settled, s.unrecorded, OwnMatch(s));
    }
  }

  lemma BalancedRecord(s: State, k: nat, dbOk: bool)
    requires Balanced(s) && Enabled(s, Record(k, dbOk))
    ensures Backed(Apply(s, Record(k, dbOk)))
  {
    hide Plain, Apply, Backed, RemoveOne;
    PlainParts(s);
    RecordForm(s, k, dbOk);
    if Apply(s, Record(k, dbOk)).matchers[0].Idle? {
      RecordBacksIff(s);
    } else {
      SameBacking(s, Apply(s, Record(k, dbOk)));
    }
  }

  lemma StageAfter(s: State, step: Step)
    requires |s.matchers| == 1 && Enabled(s, step) && !step.Send? && !step.RecordUnheard?
    ensures var s' := Apply(s, step);
            && |s'.matchers| == 1
            && (s'.matchers[0].Busy? && s'.matchers[0].stage.Recording? ==> s'.matchers == s.matchers && !step.Record?)
  {
    hide IsHead, AcquireTx, FinalizeTx, Decide, ExpireRows, CancelTx, CreateTx, ReleaseRows, RemoveOne;
  }

  /** As long as no submission is delivered while misled, nothing is recorded without its match. */
  lemma StepKeepsBalance(s: State, step: Step)
    requires Balanced(s) && Enabled(s, step) && Unfilled(step) && !(step == Send(0, Delivered) && Misled(s))
    ensures Balanced(Apply(s, step))
  {
    hide Plain, Apply, Misled;
    PlainParts(s);
    StepKeepsPlain(s, step);
    match step
    case Send(k, transport) => BalancedSend(s, k, transport);
    case Record(k, dbOk) => BalancedRecord(s, k, dbOk); StageAfter(s, step);
    case RecordUnheard(k) => UnheardForm(s, k); BalancedRecord(s, k, true);
    case _ => HistoryStays(s, step); StageAfter(s, step);
  }

  /** No submission of the run is delivered while the matcher is misled. */
  ghost predicate NeverMisled(s: State, steps: seq<Step>, s': State)
    decreases |steps|
  {
    if steps == [] then s' == s
    else
      && Enabled(s, steps[0]) && Unfilled(steps[0]) && !(steps[0] == Send(0, Delivered) && Misled(s))
      && NeverMisled(Apply(s, steps[0]), steps[1..], s')
  }

  lemma {:induction false} RunKeepsBalance(s: State, steps: seq<Step>, s': State)
    requires Balanced(s) && NeverMisled(s, steps, s')
    ensures Balanced(s')
    decreases |steps|
  {
    if steps != [] {
      hide Apply, Enabled, Balanced, Misled, Unfilled;
      StepKeepsBalance(s, steps[0]);
      RunKeepsBalance(Apply(s, steps[0]), steps[1..], s');
    }
  }

  // ---------------------------------------------------------------- the theorems

  /** Calm or not: while no submission is delivered to a misled matcher, every trade row has its
      match, whatever arrives, is cancelled, expires, is lost or fails. */
  lemma BackedWhileNotMisled(steps: seq<Step>, s: State)
    requires NeverMisled(Initial(1), steps, s)
    ensures Backed(s)
  {
    hide NeverMisled, Plain, Backed;
    InitialPlain();
    assert RecordsOwn(Initial(1));
    RunKeepsBalance(Initial(1), steps, s);
  }

  /** API calls alone. */
  predicate ApiOnly(steps: seq<Step>) {
    forall i | 0 <= i < |steps| :: steps[i].Create? || steps[i].Cancel? || steps[i].Expire?
  }

  lemma {:induction false} ApiKeepsHistory(s: State, steps: seq<Step>, s': State)
    requires Run(s, steps, s') && ApiOnly(steps)
    ensures s'.executions == s.executions && s'.settled == s.settled && s'.unrecorded == s.unrecorded
            && s'.matchers == s.matchers
    decreases |steps|
  {
    if steps != [] {
      hide Apply, Enabled;
      HistoryStays(s, steps[0]);
      ApiKeepsReserved(s, steps[0]);
      ApiKeepsHistory(Apply(s, steps[0]), steps[1..], s');
    }
  }

  /** Exactly when a recording lacks its match. In any run of one matcher over orders created
      unfilled, up to the first trade row without a match: deliver the pending submission, let any API
      calls come in between, and record. The trade row is written, and it has a match on chain unless
      the matcher was misled at the submission: unless, that is, its own match was not among the
      unrecorded ones, and its fill exceeded what the unrecorded matches left of one of its orders. */
  lemma RecordingIsBackedIff(steps: seq<Step>, s: State, between: seq<Step>, s1: State) returns (s': State)
    requires UnfilledRun(Initial(1), steps, s) && Backed(s) && AtSubmission(s) && Enabled(s, Send(0, Delivered))
    requires UnfilledRun(Apply(s, Send(0, Delivered)), between, s1) && ApiOnly(between)
    ensures Enabled(s1, Record(0, true)) && s' == Apply(s1, Record(0, true))
    ensures s'.matchers == [Idle] && |s'.db.trades| == |s1.db.trades| + 1
    ensures Backed(s') <==> !Misled(s)
    ensures Misled(s) ==> Surplus(s') > 0
  {
    hide Plain, Run, Backed, Misled, Apply, Enabled;
    InitialPlain();
    RunKeepsPlain(Initial(1), steps, s);
    DeliveredRecordsOwn(s);
    var s0 := Apply(s, Send(0, Delivered));
    ApiKeepsHistory(s0, between, s1);
    SameBacking(s0, s1);
    RecordingEnabled(s1);
    RunAppend(Initial(1), steps, s, Send(0, Delivered));
    RunConcat(Initial(1), steps + [Send(0, Delivered)], s0, between, s1);
    FinalizeNeverFails(steps + [Send(0, Delivered)] + between, s1);
    s' := Apply(s1, Record(0, true));
    RecordForm(s1, 0, true);
    RecordBacksIff(s1);
  }

  lemma SameBacking(s: State, s': State)
    requires Backed(s) && s'.executions == s.executions && s'.settled == s.settled && s'.unrecorded == s.unrecorded
    ensures Backed(s')
  {
  }

  lemma RecordingEnabled(s: State)
    requires |s.matchers| == 1 && s.matchers[0].Busy? && s.matchers[0].stage.Recording?
    ensures Enabled(s, Record(0, true))
  {
  }

  // ---------------------------------------------------------------- once unbacked, always unbacked

  /** How many more matches are accounted for than happened. */
  function Surplus(s: State): int { |s.settled| + |s.unrecorded| - |s.executions| }

  lemma BackedSurplus(s: State)
    requires Backed(s)
    ensures Surplus(s) == 0
  {
    assert |multiset(s.executions)| == |multiset(s.settled) + multiset(s.unrecorded)|;
  }

  lemma StepKeepsSurplus(s: State, step: Step)
    requires |s.matchers| == 1 && Enabled(s, step)
    ensures |Apply(s, step).matchers| == 1 && Surplus(Apply(s, step)) >= Surplus(s)
  {
    MatchersStay(s, step);
    hide Apply, Refused;
    match step
    case Send(k, transport) => SendForm(s, k, transport);
    case Record(k, dbOk) => RecordForm(s, k, dbOk); RemoveLength(s.unrecorded, OwnMatch(s));
    case RecordUnheard(k) => UnheardForm(s, k); RecordForm(s, k, true); RemoveLength(s.unrecorded, OwnMatch(s));
    case _ => HistoryStays(s, step);
  }

  lemma RemoveLength(es: seq<Execution>, e: Execution)
    ensures |RemoveOne(es, e)| >= |es| - 1
  {
    if e in es { RemoveOneFacts(es, e); } else { RemoveAbsent(es, e); }
  }

  /** A trade row without its match is never made good: no later state is backed. */
  lemma {:induction false} UnbackedForever(s: State, steps: seq<Step>, s': State)
    requires |s.matchers| == 1 && Surplus(s) > 0 && Run(s, steps, s')
    ensures Surplus(s') > 0 && !Backed(s')
    decreases |steps|
  {
    if steps == [] {
      if Backed(s') { BackedSurplus(s'); }
    } else {
      hide Apply, Enabled, Backed;
      StepKeepsSurplus(s, steps[0]);
      UnbackedForever(Apply(s, steps[0]), steps[1..], s');
    }
  }

  // ---------------------------------------------------------------- what a caller could look up

  lemma {:induction false} VolumeIsFill(trades: seq<Trade>, settled: seq<Execution>, id: string)
    requires Mirrors(trades, settled)
    ensures TradeVolume(trades, id) == FillSum(settled, id)
  {
    if trades != [] {
      var n := |trades| - 1;
      assert trades[n].taker == settled[n].taker;
      VolumeIsFill(trades[..n], settled[..n], id);
    }
  }

  lemma FilledIsSettled(s: State, o: Order)
    requires Plain(s) && HeldRow(s.db.rows, o)
    ensures o.filled == FillSum(s.settled, o.orderId)
  {
    PlainList(s);
    var i :| 0 <= i < |s.db.rows| && s.db.rows[i] == o.(status := Matching);
    InvRow(s, i);
    MirrorsNow(s);
    hide Inv, Reservations, TradesOk, Mirrors, AllPossible, TradeVolume, FillSum;
    VolumeIsFill(s.db.trades, s.settled, o.orderId);
  }

  /** Being misled, read off the chain and the trade rows alone: every copy of the match on chain has
      its trade row, and the fill would take the order's fills on chain past its desired amount. */
  lemma MisledOnChain(steps: seq<Step>, s: State)
    requires UnfilledRun(Initial(1), steps, s) && Backed(s) && AtSubmission(s)
    ensures var (c, fill, e) := (s.matchers[0].pair, s.matchers[0].stage.fill, OwnMatch(s));
            Misled(s) <==>
              && multiset(s.executions)[e] == multiset(s.settled)[e]
              && (|| FillSum(s.executions, c.taker.orderId) + fill > c.taker.desired
                  || FillSum(s.executions, c.maker.orderId) + fill > c.maker.desired)
  {
    var c := s.matchers[0].pair;
    hide Plain, FillSum, UnfilledRun, HeldRow, Proportional;
    InitialPlain();
    RunKeepsPlain(Initial(1), steps, s);
    AtSubmissionFacts(s);
    FilledIsSettled(s, c.taker);
    FilledIsSettled(s, c.maker);
    BackedSums(s, c.taker.orderId);
    BackedSums(s, c.maker.orderId);
    assert OwnMatch(s) in s.unrecorded <==> multiset(s.unrecorded)[OwnMatch(s)] > 0;
  }

  // ---------------------------------------------------------------- calm is one way not to be misled

  lemma CalmIsNotMisled(s: State)
    requires Inv(s) && Once(s) && Plain(s) && Backed(s)
    ensures !Misled(s)
  {
    hide Inv, Once, Plain, Backed, Reservations, Creation, Accounts, Pendings, PhaseOnce, Exceeds, Refused, Poised, Top;
    if AtSubmission(s) {
      PoisedNow(s);
      RefusedIff(s, s.matchers[0].pair, s.matchers[0].stage.units, s.matchers[0].stage.fill);
      RefusedExactly(s);
    }
  }

  lemma {:induction false} CalmAvoids(s: State, steps: seq<Step>, s': State)
    requires Inv(s) && Once(s) && Balanced(s) && CalmRun(s, steps, s')
    ensures NeverMisled(s, steps, s')
    decreases |steps|
  {
    if steps != [] {
      hide Apply, Inv, Enabled, Once, Plain, Backed, RecordsOwn, Misled;
      assert Unfilled(steps[0]);
      hide Calm, Unfilled;
      CalmIsNotMisled(s);
      StepKeepsInv(s, steps[0]);
      StepKeepsOnce(s, steps[0]);
      StepKeepsBalance(s, steps[0]);
      CalmAvoids(Apply(s, steps[0]), steps[1..], s');
    }
  }

  /** Every calm run is one in which the matcher is never misled; so what holds of those holds of
      calm runs. */
  lemma CalmIsNeverMisled(steps: seq<Step>, s: State)
    requires CalmRun(Initial(1), steps, s)
    ensures NeverMisled(Initial(1), steps, s)
  {
    hide Inv, Once, CalmRun, Plain, Backed, NeverMisled;
    InitialInv(1);
    InitialOnce();
    InitialPlain();
    assert RecordsOwn(Initial(1));
    CalmAvoids(Initial(1), steps, s);
  }
}

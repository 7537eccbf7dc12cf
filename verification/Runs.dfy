/** What holds after every run, whatever the number of matchers and however API calls, ticks and
    failures interleave. */
module Runs {
  import opened Arith
  import opened MatchRules
  import opened Orders
  import opened Protocol
  import opened Wrappers

  // ---------------------------------------------------------------- the history is the run's

  predicate CreatedIn(steps: seq<Step>, b: Order) {
    exists j :: 0 <= j < |steps| && steps[j].Create? && steps[j].o.(status := Active) == b
  }

  /** The birth record of an order never changes. */
  lemma StepKeepsBirth(s: State, step: Step, id: string)
    requires Inv(s) && Enabled(s, step) && id in Apply(s, step).born
    ensures if id in s.born then Apply(s, step).born[id] == s.born[id]
            else step.Create? && Apply(s, step).born[id] == step.o.(status := Active)
  {
    hide RowOk, TradeOk, PhaseOk, TradesOk, IsHead, AcquireTx, FinalizeTx, Refused, Decide, ExpireRows, CancelTx;
    if step.Create? && id in s.born && id == step.o.orderId {
      assert HasId(s.db.rows, id);
    }
  }

  /** Every birth record is the order of some create step of the run. */
  lemma {:induction false} BirthsAreCreations(s: State, steps: seq<Step>, s': State, id: string)
    requires Inv(s) && Run(s, steps, s') && id in s'.born
    ensures if id in s.born then s'.born[id] == s.born[id] else CreatedIn(steps, s'.born[id])
    decreases |steps|
  {
    if steps != [] {
      var s1 := Apply(s, steps[0]);
      StepKeepsInv(s, steps[0]);
      hide Apply, Inv, Enabled;
      BirthsAreCreations(s1, steps[1..], s', id);
      if id in s1.born {
        StepKeepsBirth(s, steps[0], id);
      } else {
        var j :| 0 <= j < |steps[1..]| && steps[1..][j].Create? && steps[1..][j].o.(status := Active) == s'.born[id];
        assert steps[j + 1] == steps[1..][j];
        if id in s.born { BirthStays(s, steps[0], id); }
      }
    }
  }

  lemma BirthStays(s: State, step: Step, id: string)
    requires Enabled(s, step) && id in s.born
    ensures id in Apply(s, step).born
  {
    hide IsHead, AcquireTx, FinalizeTx, Refused, Decide, ExpireRows, CancelTx, Clashes;
  }

  // ---------------------------------------------------------------- conservation

  /** In every reachable state each order's filled amount is its amount at creation plus the sizes
      of exactly the trades that name it, and lies between that amount and the desired one; all
      its other columns but the status are those it was created with. */
  lemma Conservation(n: nat, steps: seq<Step>, s: State, i: nat)
    requires Run(Initial(n), steps, s) && i < |s.db.rows|
    ensures var o := s.db.rows[i];
            && o.orderId in s.born && CreatedIn(steps, s.born[o.orderId]) && SameTerms(o, s.born[o.orderId])
            && o.filled == s.born[o.orderId].filled + TradeVolume(s.db.trades, o.orderId)
            && 0 <= s.born[o.orderId].filled <= o.filled <= o.desired
  {
    InitialInv(n);
    RunKeepsInv(Initial(n), steps, s);
    assert RowOk(s.db.rows[i], s.born, s.db.trades);
    BirthsAreCreations(Initial(n), steps, s, s.db.rows[i].orderId);
  }

  // ---------------------------------------------------------------- the status machine

  predicate Terminal(s: Status) { s in {Filled, Cancelled, Expired} }

  predicate RowEvolves(o: Order, o': Order) {
    && SameTerms(o', o) && StatusMove(o.status, o'.status) && o.filled <= o'.filled
    && (o.filled < o'.filled ==> o.status == Matching)
  }

  predicate RowsEvolve(rows: seq<Order>, rows': seq<Order>) {
    |rows| <= |rows'| && forall i | 0 <= i < |rows| :: RowEvolves(rows[i], rows'[i])
  }

  /** Every step moves each row along the life cycle, and only a reserved row gains fills. */
  lemma StepMovesStatus(s: State, step: Step)
    requires Inv(s) && Enabled(s, step)
    ensures RowsEvolve(s.db.rows, Apply(s, step).db.rows)
  {
    hide RowOk, TradeOk, PhaseOk, TradesOk, Refused, Decide, UniqueKeys, IsBest;
    match step
    case Acquire(k, market, now, bid, ask) =>
      HeadInRange(ExpireRows(s.db.rows, now), market, Buy, bid);
      HeadInRange(ExpireRows(s.db.rows, now), market, Sell, ask);
      AcquireOnlyStatus(s.db.rows, now, bid, ask);
    case Record(k, dbOk) => RecordMovesStatus(s, k, dbOk);
    case RecordUnheard(k) => RecordMovesStatus(s, k, true);
    case _ =>
  }

  lemma RecordMovesStatus(s: State, k: nat, dbOk: bool)
    requires Inv(s) && Enabled(s, Record(k, dbOk))
    ensures RowsEvolve(s.db.rows, Apply(s, Record(k, dbOk)).db.rows)
  {
    var s' := Apply(s, Record(k, dbOk));
    assert dbOk || s'.matchers[k].Busy?;
    if s'.matchers[k].Idle? {
      assert PhaseOk(s.matchers[k], s.born);
      ExecutableFill(s.matchers[k], s.born);
      var t, m := RecordEffect(s, k);
      FillsEvolve(s.db.rows, t, m, s.matchers[k].stage.fill);
    }
  }

  lemma FillsEvolve(rows: seq<Order>, t: nat, m: nat, fill: int)
    requires t < |rows| && m < |rows| && t != m && fill > 0
    requires rows[t].status == Matching && rows[m].status == Matching
    ensures RowsEvolve(rows, rows[t := FilledRow(rows[t], fill)][m := FilledRow(rows[m], fill)])
  {
  }

  lemma HeadInRange(rows: seq<Order>, market: Market, side: Side, head: Option<nat>)
    requires IsHead(rows, market, side, head)
    ensures InRange(head, rows)
  {
  }

  /** In every reachable state, whatever happens next moves each row along the life cycle only, and
      adds fills only to reserved rows. */
  lemma StatusMachine(n: nat, steps: seq<Step>, s: State, step: Step)
    requires Run(Initial(n), steps, s) && Enabled(s, step)
    ensures RowsEvolve(s.db.rows, Apply(s, step).db.rows)
  {
    hide Inv, Run, Apply, Enabled, RowsEvolve;
    InitialInv(n);
    RunKeepsInv(Initial(n), steps, s);
    StepMovesStatus(s, step);
  }

  lemma {:induction false} FrozenAlong(s: State, steps: seq<Step>, s': State, i: nat)
    requires Inv(s) && Run(s, steps, s') && i < |s.db.rows| && Terminal(s.db.rows[i].status)
    ensures i < |s'.db.rows| && s'.db.rows[i] == s.db.rows[i]
    decreases |steps|
  {
    if steps != [] {
      hide Apply, Inv, Enabled;
      StepKeepsInv(s, steps[0]);
      StepMovesStatus(s, steps[0]);
      var s1 := Apply(s, steps[0]);
      assert RowEvolves(s.db.rows[i], s1.db.rows[i]);
      FrozenAlong(s1, steps[1..], s', i);
    }
  }

  /** Along any run a row that is filled, cancelled or expired never changes again in any column. */
  lemma TerminalRowsAreFrozen(n: nat, before: seq<Step>, s: State, after: seq<Step>, s': State, i: nat)
    requires Run(Initial(n), before, s) && Run(s, after, s')
    requires i < |s.db.rows| && Terminal(s.db.rows[i].status)
    ensures i < |s'.db.rows| && s'.db.rows[i] == s.db.rows[i]
  {
    hide Inv, Run;
    InitialInv(n);
    RunKeepsInv(Initial(n), before, s);
    FrozenAlong(s, after, s', i);
  }

  /** In every reachable state an order is marked filled exactly when it was created with room and
      has used all of it. An order created full is never marked filled. */
  lemma FilledIff(n: nat, steps: seq<Step>, s: State, i: nat)
    requires Run(Initial(n), steps, s) && i < |s.db.rows|
    ensures var o := s.db.rows[i];
            o.orderId in s.born
              && (o.status == Filled <==> o.filled == o.desired && s.born[o.orderId].filled < o.desired)
  {
    InitialInv(n);
    RunKeepsInv(Initial(n), steps, s);
    assert RowOk(s.db.rows[i], s.born, s.db.trades);
  }

  // ---------------------------------------------------------------- trades

  /** Every recorded trade pairs one buy and one sell of its market, has positive size, its maker is
      no later than its taker, and its price is the maker's, which lies between the sell limit and
      the buy limit. */
  lemma TradesAreValid(n: nat, steps: seq<Step>, s: State, j: nat)
    requires Run(Initial(n), steps, s) && j < |s.db.trades|
    ensures var t := s.db.trades[j];
            && t.taker in s.born && t.maker in s.born && t.size > 0
            && var (x, y) := (s.born[t.taker], s.born[t.maker]);
               && x.market == t.market == y.market && t.aggressor == x.side == y.side.Opposite()
               && t.price == y.limitPrice && y.createdAt <= x.createdAt
               && var (buy, sell) := if x.side.Buy? then (x, y) else (y, x);
                  sell.ticks <= y.ticks <= buy.ticks
  {
    InitialInv(n);
    RunKeepsInv(Initial(n), steps, s);
    assert TradeOk(s.db.trades[j], s.settled[j], s.born);
  }

  // ---------------------------------------------------------------- the signed budget

  /** used units stand to the signed amount as the filled size stands to the desired amount. */
  predicate InProportion(used: int, signed: int, filled: int, desired: int) {
    used * desired == filled * signed
  }

  lemma AddProportions(u: int, v: int, signed: int, f: int, g: int, desired: int)
    requires InProportion(u, signed, f, desired) && InProportion(v, signed, g, desired)
    ensures InProportion(u + v, signed, f + g, desired)
  {
  }

  lemma NoProportion(signed: int, desired: int)
    ensures InProportion(0, signed, 0, desired)
  {
  }

  /** Units and sizes of one order's recorded matches stand in the ratio of its signed to its
      stored amount. */
  lemma {:induction false} UnitsFollowSizes(trades: seq<Trade>, settled: seq<Execution>, born: map<string, Order>,
      id: string)
    requires TradesOk(trades, settled, born) && id in born && born[id].desired > 0
    ensures InProportion(Used(settled, id), SignedAmount(born[id]), TradeVolume(trades, id), born[id].desired)
    ensures Used(settled, id) >= 0 && (Used(settled, id) > 0 ==> SignedAmount(born[id]) > 0)
  {
    hide InProportion, SignedAmount, TradeOk;
    if trades == [] {
      NoProportion(SignedAmount(born[id]), born[id].desired);
    } else {
      var n := |trades| - 1;
      var (t, e) := (trades[n], settled[n]);
      UnitsFollowSizes(trades[..n], settled[..n], born, id);
      assert TradeOk(t, e, born);
      LastTrade(t, e, born, id);
      if e.Names(id) {
        AddProportions(Used(settled[..n], id), e.units, SignedAmount(born[id]), TradeVolume(trades[..n], id), e.fill,
          born[id].desired);
      }
    }
  }

  lemma LastTrade(t: Trade, e: Execution, born: map<string, Order>, id: string)
    requires TradeOk(t, e, born) && id in born && born[id].desired > 0
    ensures t.size == e.fill && (e.Names(id) <==> t.taker == id || t.maker == id)
    ensures e.Names(id) ==> InProportion(e.units, SignedAmount(born[id]), e.fill, born[id].desired)
    ensures e.Names(id) ==> SignedAmount(born[id]) > 0 && e.units > 0
  {
    hide SignedAmount, Crosses;
    var (d, g) := (born[id].desired, SignedAmount(born[id]));
    if e.Names(id) && g <= 0 {
      MulMono(1, e.units, d);
      MulMono(g, 0, e.fill);
    }
  }

  /** used is exactly the signed amount in proportion to what was filled since creation, never
      passes the signed amount, and reaches it when an order created unfilled is filled. */
  predicate WithinBudget(used: int, o: Order, born: Order) {
    && used * o.desired == (o.filled - born.filled) * SignedAmount(o)
    && (used == 0 || 0 < used <= SignedAmount(o))
    && (born.filled == 0 && o.status == Filled ==> used == SignedAmount(o))
  }

  /** In every reachable state the executor-unit amounts of an order's recorded matches sum to
      exactly its share of the signed amount. */
  lemma SignedBudget(n: nat, steps: seq<Step>, s: State, i: nat)
    requires Run(Initial(n), steps, s) && i < |s.db.rows|
    ensures s.db.rows[i].orderId in s.born
    ensures WithinBudget(Used(s.settled, s.db.rows[i].orderId), s.db.rows[i], s.born[s.db.rows[i].orderId])
  {
    hide WithinBudget;
    InitialInv(n);
    RunKeepsInv(Initial(n), steps, s);
    hide Run;
    InvRow(s, i);
    hide Inv;
    OrderBudget(s.db.rows[i], s.born, s.db.trades, s.settled);
  }

  lemma InvRow(s: State, i: nat)
    requires Inv(s) && i < |s.db.rows|
    ensures RowOk(s.db.rows[i], s.born, s.db.trades) && TradesOk(s.db.trades, s.settled, s.born)
  {
    hide RowOk, TradesOk, PhaseOk;
  }

  lemma OrderBudget(o: Order, born: map<string, Order>, trades: seq<Trade>, settled: seq<Execution>)
    requires RowOk(o, born, trades) && TradesOk(trades, settled, born)
    ensures o.orderId in born && WithinBudget(Used(settled, o.orderId), o, born[o.orderId])
  {
    hide SignedAmount, TradesOk, Used, TradeVolume;
    SignedByAction(o, born[o.orderId]);
    UnitsFollowSizes(trades, settled, born, o.orderId);
    BudgetBound(Used(settled, o.orderId), SignedAmount(o), o.desired, o.filled - born[o.orderId].filled);
  }

  lemma BudgetBound(used: int, signed: int, desired: int, filled: int)
    requires InProportion(used, signed, filled, desired) && used >= 0 && desired > 0 && filled <= desired
    requires used > 0 ==> signed > 0
    ensures used == 0 || 0 < used <= signed
    ensures filled == desired ==> used == signed
  {
    if used > 0 {
      MulMono(filled, desired, signed);
      if used > signed { MulMono(signed + 1, used, desired); }
    }
    if filled == desired { MulCancel(used, signed, desired); }
  }

  // ---------------------------------------------------------------- the API's steps, in columns

  /** Creation appends the order as active unless its id, or its owner's nonce, is taken. */
  lemma CreateMeans(s: State, o: Order)
    requires Inv(s) && Enabled(s, Create(o))
    ensures var (rows, row) := (s.db.rows, o.(status := Active));
            Apply(s, Create(o)) ==
              if forall i | 0 <= i < |rows| ::
                   rows[i].orderId != o.orderId && (rows[i].owner == o.owner ==> rows[i].nonce != o.nonce)
              then s.(db := s.db.(rows := rows + [row]), born := s.born[o.orderId := row])
              else s
  {
    CreateIff(s.db, o);
  }

  /** Cancelling turns the owner's active order under the nonce into a cancelled one, expiring every
      active order whose time has come into an expired one; a reserved order is spared by both. */
  lemma CancelAndExpireMean(s: State, owner: string, nonce: real, now: int)
    requires Inv(s)
    ensures var s' := Apply(s, Cancel(owner, nonce));
            && s' == s.(db := s.db.(rows := s'.db.rows)) && |s'.db.rows| == |s.db.rows|
            && forall i | 0 <= i < |s.db.rows| ::
                 var o := s.db.rows[i];
                 s'.db.rows[i] == if o.owner == owner && o.nonce == nonce && o.status == Active
                                  then o.(status := Cancelled) else o
    ensures var s' := Apply(s, Expire(now));
            && s' == s.(db := s.db.(rows := s'.db.rows)) && |s'.db.rows| == |s.db.rows|
            && forall i | 0 <= i < |s.db.rows| ::
                 var o := s.db.rows[i];
                 s'.db.rows[i] == if o.status == Active && o.expiry <= now then o.(status := Expired) else o
  {
  }

  /** A crashed matcher forgets its pair and gives nothing back. */
  lemma CrashMeans(s: State, k: nat)
    requires Enabled(s, Crash(k))
    ensures Apply(s, Crash(k)) == s.(matchers := s.matchers[k := Idle])
  {
  }

  // ---------------------------------------------------------------- progress

  lemma {:induction false} HeadUpTo(rows: seq<Order>, market: Market, side: Side, n: nat) returns (head: Option<nat>)
    requires n <= |rows|
    ensures match head
            case Some(i) => i < n && Resting(rows[i], market, side)
                            && forall j | 0 <= j < n && Resting(rows[j], market, side) :: !Ahead(rows[j], rows[i])
            case None => forall j | 0 <= j < n :: !Resting(rows[j], market, side)
  {
    if n == 0 {
      head := None;
    } else {
      head := HeadUpTo(rows, market, side, n - 1);
      if Resting(rows[n - 1], market, side) && (head.None? || Ahead(rows[n - 1], rows[head.value])) {
        head := Some(n - 1);
      }
    }
  }

  /** No matcher is ever stuck: an idle one can poll any market at any time, and one inside a tick
      can take its next step whatever becomes of it. The API can always act. */
  lemma NeverStuck(s: State, k: nat, market: Market, now: int, transport: Transport, dbOk: bool)
    requires k < |s.matchers|
    ensures s.matchers[k].Idle? ==> exists bid, ask :: Enabled(s, Acquire(k, market, now, bid, ask))
    ensures s.matchers[k].Busy? ==>
              && Enabled(s, Crash(k))
              && match s.matchers[k].stage
                 case Checking(_) => Enabled(s, Check(k))
                 case Submitting(_, _) => Enabled(s, Send(k, transport))
                 case Recording(_, _) => Enabled(s, Record(k, dbOk)) && Enabled(s, RecordUnheard(k))
                 case Failing => Enabled(s, Fail(k, dbOk))
                 case Releasing => Enabled(s, LetGo(k, dbOk))
    ensures forall o :: Enabled(s, Create(o)) <==> 0 <= o.filled <= o.desired && o.desired > 0 && o.ticks > 0
    ensures forall owner, nonce :: Enabled(s, Cancel(owner, nonce))
    ensures Enabled(s, Expire(now))
  {
    if s.matchers[k].Idle? {
      var live := ExpireRows(s.db.rows, now);
      var bid := HeadUpTo(live, market, Buy, |live|);
      var ask := HeadUpTo(live, market, Sell, |live|);
      assert Enabled(s, Acquire(k, market, now, bid, ask));
    }
  }

  /** How many of its own steps a matcher may still take before it is idle. */
  function StepsLeft(p: Phase): nat {
    match p
    case Idle => 0
    case Busy(_, Checking(_)) => 4
    case Busy(_, Submitting(_, _)) => 3
    case Busy(_, Recording(_, _)) => 2
    case Busy(_, Failing) => 2
    case Busy(_, Releasing) => 1
  }

  predicate StartsTick(step: Step, k: nat) { step.Acquire? && step.k == k }

  predicate OwnStep(step: Step, k: nat) {
    !step.Create? && !step.Cancel? && !step.Expire? && !step.Acquire? && step.k == k
  }

  function OwnSteps(steps: seq<Step>, k: nat): nat {
    if steps == [] then 0 else (if OwnStep(steps[0], k) then 1 else 0) + OwnSteps(steps[1..], k)
  }

  lemma StepLowers(s: State, step: Step, k: nat)
    requires Enabled(s, step) && k < |s.matchers| && !StartsTick(step, k)
    ensures var s' := Apply(s, step);
            && |s'.matchers| == |s.matchers|
            && StepsLeft(s'.matchers[k]) + (if OwnStep(step, k) then 1 else 0) <= StepsLeft(s.matchers[k])
  {
    hide CreateTx, CancelTx, ExpireRows, AcquireTx, IsHead, Decide, ChainResult, FinalizeTx, ReleaseRows, RemoveOne;
  }

  /** However everything else interleaves, a tick ends after at most four of the matcher's own steps. */
  lemma {:induction false} TickEnds(s: State, steps: seq<Step>, s': State, k: nat)
    requires Run(s, steps, s') && k < |s.matchers|
    requires forall i | 0 <= i < |steps| :: !StartsTick(steps[i], k)
    ensures k < |s'.matchers| && OwnSteps(steps, k) + StepsLeft(s'.matchers[k]) <= StepsLeft(s.matchers[k]) <= 4
    ensures OwnSteps(steps, k) == 4 ==> s'.matchers[k] == Idle
    decreases |steps|
  {
    hide Apply, Enabled, OwnStep;
    if steps != [] {
      assert !StartsTick(steps[0], k);
      hide StartsTick;
      StepLowers(s, steps[0], k);
      TickEnds(Apply(s, steps[0]), steps[1..], s', k);
    }
  }

  // ---------------------------------------------------------------- priority and quiescence

  /** Whatever a matcher reserves is an active bid and ask of its market that expire later than now,
      the later one taking; no active order of their sides has a higher bid or a lower ask, and none
      at the same price was created earlier. */
  lemma ReservationHasPriority(s: State, k: nat, market: Market, now: int, bid: Option<nat>, ask: Option<nat>)
    requires Enabled(s, Acquire(k, market, now, bid, ask))
    ensures var s' := Apply(s, Acquire(k, market, now, bid, ask));
            s'.matchers[k].Busy? ==>
              var c := s'.matchers[k].pair;
              && c.taker.market == c.maker.market == market && c.taker.status == c.maker.status == Active
              && ((c.taker.side == Buy && c.maker.side == Sell) || (c.taker.side == Sell && c.maker.side == Buy))
              && now < c.taker.expiry && now < c.maker.expiry && c.maker.createdAt <= c.taker.createdAt
              && FirstInLine(s'.db.rows, c.taker) && FirstInLine(s'.db.rows, c.maker)
  {
    if bid.Some? && ask.Some? {
      var live := ExpireRows(s.db.rows, now);
      var (b, a) := (live[bid.value], live[ask.value]);
      assert First(live, b) && First(live, a);
      StaysInLine(live, b, {b.orderId, a.orderId});
      StaysInLine(live, a, {b.orderId, a.orderId});
    }
  }

  /** No resting bid of the market is at or above a resting ask. */
  predicate Quiescent(rows: seq<Order>, market: Market) {
    forall i, j | 0 <= i < |rows| && 0 <= j < |rows| && Resting(rows[i], market, Buy)
        && Resting(rows[j], market, Sell) ::
      rows[i].ticks < rows[j].ticks
  }

  /** A tick finds a side empty or its pair uncrossed exactly when no resting bid and ask of the
      market, after expiry, cross. */
  lemma QuiescenceIff(s: State, k: nat, market: Market, now: int, bid: Option<nat>, ask: Option<nat>)
    requires Enabled(s, Acquire(k, market, now, bid, ask))
    ensures var p := Apply(s, Acquire(k, market, now, bid, ask)).matchers[k];
            p.Idle? || !Crosses(p.pair.taker, p.pair.maker) <==> Quiescent(ExpireRows(s.db.rows, now), market)
  {
    var live := ExpireRows(s.db.rows, now);
    HeadInRange(live, market, Buy, bid);
    HeadInRange(live, market, Sell, ask);
    hide ExpireRows, ReserveRows, StringAfter;
    if bid.Some? && ask.Some? {
      CrossesIff(live[bid.value], live[ask.value]);
    }
  }
}

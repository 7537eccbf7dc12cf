/** The drain of a static book as runs of the protocol with one matcher. */
module DrainRuns {
  import opened Arith
  import opened Drain
  import opened GoodTick
  import opened MatchEngine
  import opened MatchRules
  import opened Orders
  import opened Protocol
  import opened Runs
  import opened Ticks
  import opened Wrappers

  /** Any crossing pair of resting orders of the market converts. */
  ghost predicate AllConvert(rows: seq<Order>, market: Market, ps: int, amounts: int) {
    forall i, j | 0 <= i < |rows| && 0 <= j < |rows| && Resting(rows[i], market, Buy)
        && Resting(rows[j], market, Sell) ::
      Convertible(ChooseTakerMaker(rows[i], rows[j]), ps, amounts)
  }

  /** One idle matcher, nothing expiring, every resting order with room, conversion and chain
      agreeable: the static book of a drain. */
  ghost predicate StaticBook(s: State, market: Market, now: int, ps: int, amounts: int) {
    && s.matchers == [Idle] && InStep(s)
    && Room(s.db.rows) && AllConvert(s.db.rows, market, ps, amounts)
    && forall i | 0 <= i < |s.db.rows| && s.db.rows[i].status == Active :: !s.db.rows[i].IsExpired(now)
  }

  ghost predicate Static(s: State, market: Market, now: int, ps: int, amounts: int) {
    Inv(s) && StaticBook(s, market, now, ps, amounts)
  }

  lemma NothingExpires(rows: seq<Order>, now: int)
    requires forall i | 0 <= i < |rows| && rows[i].status == Active :: !rows[i].IsExpired(now)
    ensures ExpireRows(rows, now) == rows
  {
  }

  lemma NoCrossIsQuiescent(rows: seq<Order>, market: Market, bid: Option<nat>, ask: Option<nat>)
    requires IsHead(rows, market, Buy, bid) && IsHead(rows, market, Sell, ask)
    requires bid.Some? && ask.Some? ==> rows[bid.value].ticks < rows[ask.value].ticks
    ensures Quiescent(rows, market)
  {
  }

  // ---------------------------------------------------------------- any undisturbed run

  function Sizes(trades: seq<Trade>): int {
    if trades == [] then 0 else trades[0].size + Sizes(trades[1..])
  }

  lemma Sooner(s: State, market: Market, now: int, until: int, ps: int, amounts: int)
    requires Static(s, market, until, ps, amounts) && now <= until
    ensures Static(s, market, now, ps, amounts)
  {
    hide Inv, InStep, Room, AllConvert;
  }

  lemma StillConverts(rows: seq<Order>, market: Market, b: nat, a: nat, until: int, ps: int, amounts: int)
    requires AllConvert(rows, market, ps, amounts) && b < |rows| && a < |rows| && rows[b].status == Active
             && rows[a].status == Active
    requires forall i | 0 <= i < |rows| && rows[i].status == Active :: !rows[i].IsExpired(until)
    ensures AllConvert(AfterMatch(rows, b, a), market, ps, amounts)
    ensures forall i | 0 <= i < |rows| && AfterMatch(rows, b, a)[i].status == Active ::
            !AfterMatch(rows, b, a)[i].IsExpired(until)
  {
    var rows' := AfterMatch(rows, b, a);
    assert forall i | 0 <= i < |rows| ::
        SameTerms(rows'[i], rows[i]) && (rows'[i].status == Active ==> rows[i].status == Active);
    hide AfterMatch;
    forall i, j | 0 <= i < |rows'| && 0 <= j < |rows'| && Resting(rows'[i], market, Buy)
        && Resting(rows'[j], market, Sell)
      ensures Convertible(ChooseTakerMaker(rows'[i], rows'[j]), ps, amounts)
    {
      assert Convertible(ChooseTakerMaker(rows[i], rows[j]), ps, amounts);
      SameConversion(rows[i], rows[j], rows'[i], rows'[j], ps, amounts);
    }
  }

  lemma SameConversion(x: Order, y: Order, x': Order, y': Order, ps: int, amounts: int)
    requires SameTerms(x', x) && SameTerms(y', y) && Convertible(ChooseTakerMaker(x, y), ps, amounts)
    ensures Convertible(ChooseTakerMaker(x', y'), ps, amounts)
  {
    hide SharedScale, StringAfter;
    assert x'.actionData == x.actionData && y'.actionData == y.actionData;
  }

  lemma StaysStatic(s: State, steps: seq<Step>, mid: State, market: Market, b: nat, a: nat, until: int, ps: int,
      amounts: int)
    requires Static(s, market, until, ps, amounts) && Run(s, steps, mid) && Matched(s.db.rows, market, b, a)
    requires mid.matchers == [Idle] && InStep(mid) && mid.db.rows == AfterMatch(s.db.rows, b, a)
    ensures Static(mid, market, until, ps, amounts)
  {
    BestIsActive(s.db.rows, market, b, a);
    hide Run, Inv, InStep, AllConvert, IsBest, AfterMatch, FillAt, Matched;
    RunKeepsInv(s, steps, mid);
    MatchFacts(s.db.rows, market, b, a);
    StillConverts(s.db.rows, market, b, a, until, ps, amounts);
    hide Room;
  }

  lemma BestIsActive(rows: seq<Order>, market: Market, b: nat, a: nat)
    requires Matched(rows, market, b, a)
    ensures b < |rows| && a < |rows| && rows[b].status == Active && rows[a].status == Active && b != a
  {
  }

  /** One whole tick at the front of a run. */
  datatype Tick = Tick(length: nat, mid: State, pick: Option<(nat, nat)>)

  /** The first length steps poll the market once, at the start. */
  predicate PollsOnce(steps: seq<Step>, market: Market, length: nat) {
    && 0 < length <= |steps| && steps[0].Acquire? && steps[0].market == market
    && forall i | 0 < i < length :: !steps[i].Acquire?
  }

  ghost predicate TickOf(s: State, steps: seq<Step>, s': State, market: Market, tick: Tick) {
    && PollsOnce(steps, market, tick.length) && Run(tick.mid, steps[tick.length..], s') && tick.mid.matchers == [Idle]
    && match tick.pick
       case None => tick.mid == s && Quiescent(s.db.rows, market)
       case Some((b, a)) =>
         && Matched(s.db.rows, market, b, a) && tick.mid.db.rows == AfterMatch(s.db.rows, b, a)
         && Extends(s.db.trades, tick.mid.db.trades, FillAt(s.db.rows, b, a))
  }

  /** A tick that finds no pair. */
  lemma EmptyTick(s: State, steps: seq<Step>, s': State, market: Market, until: int, ps: int, amounts: int)
    returns (tick: Tick)
    requires Static(s, market, until, ps, amounts) && steps != [] && Enabled(s, steps[0])
             && Run(Apply(s, steps[0]), steps[1..], s')
    requires steps[0].Acquire? && steps[0].k == 0 && steps[0].market == market && steps[0].now <= until
    requires steps[0].bid.None? || steps[0].ask.None?
    ensures TickOf(s, steps, s', market, tick) && tick.pick == None
  {
    var Acquire(_, _, now, bid, ask) := steps[0];
    Sooner(s, market, now, until, ps, amounts);
    NothingExpires(s.db.rows, now);
    hide Inv, InStep, Room, AllConvert, IsBest, Run;
    AcquireForm(s, 0, market, now, bid, ask);
    NoCrossIsQuiescent(s.db.rows, market, bid, ask);
    assert Apply(s, steps[0]) == s;
    tick := Tick(1, s, None);
  }

  lemma AcquiredPair(s: State, step: Step, market: Market, until: int, ps: int, amounts: int) returns (b: nat, a: nat)
    requires Static(s, market, until, ps, amounts) && Enabled(s, step)
    requires step.Acquire? && step.k == 0 && step.market == market && step.now <= until && step.bid.Some?
             && step.ask.Some?
    ensures IsBest(s.db.rows, market, Buy, b) && IsBest(s.db.rows, market, Sell, a)
    ensures step == Acquire(0, market, step.now, Some(b), Some(a)) && Apply(s, step) == AfterAcquire(s, b, a, step.now)
  {
    b, a := step.bid.value, step.ask.value;
    assert IsHead(ExpireRows(s.db.rows, step.now), market, Buy, step.bid)
        && IsHead(ExpireRows(s.db.rows, step.now), market, Sell, step.ask);
    hide Inv, InStep, Room, AllConvert, IsBest, ReserveRows, ChooseTakerMaker, Enabled, Apply;
    Sooner(s, market, step.now, until, ps, amounts);
    NothingExpires(s.db.rows, step.now);
    BestInRange(s.db.rows, market, b, a);
    AcquireHeads(s, 0, market, step.now, b, a, s.db.rows, ChooseTakerMaker(s.db.rows[b], s.db.rows[a]));
  }

  lemma UncrossedStep(s: State, b: nat, a: nat, now: int)
    requires b < |s.db.rows| && a < |s.db.rows| && s.db.rows[b].side.Buy? && s.db.rows[a].side.Sell?
    requires s.db.rows[b].ticks < s.db.rows[a].ticks
    ensures var s1 := AfterAcquire(s, b, a, now);
            Apply(s1, Check(0)) == s1.(matchers := [Busy(ChooseTakerMaker(s.db.rows[b], s.db.rows[a]), Releasing)])
  {
    CrossesIff(s.db.rows[b], s.db.rows[a]);
    hide ReserveRows, ComputeExecutionUnits, FillOf, ChooseTakerMaker;
  }

  /** A tick whose pair does not cross gives it back. */
  lemma UncrossedTick(s: State, steps: seq<Step>, s': State, market: Market, b: nat, a: nat, now: int, until: int)
    returns (tick: Tick)
    requires Inv(s) && s.matchers == [Idle] && IsBest(s.db.rows, market, Buy, b) && IsBest(s.db.rows, market, Sell, a)
    requires s.db.rows[b].ticks < s.db.rows[a].ticks && steps != [] && steps[0].Acquire? && steps[0].market == market
    requires Run(AfterAcquire(s, b, a, now), steps[1..], s') && Undisturbed(steps[1..], market, until)
             && s'.matchers == [Idle]
    ensures TickOf(s, steps, s', market, tick) && tick.pick == None
  {
    var c := ChooseTakerMaker(s.db.rows[b], s.db.rows[a]);
    var s1 := AfterAcquire(s, b, a, now);
    var s2 := s1.(matchers := [Busy(c, Releasing)]);
    UncrossedStep(s, b, a, now);
    NoCrossIsQuiescent(s.db.rows, market, Some(b), Some(a));
    assert UniqueKeys(s.db.rows) && b != a;
    hide Inv, Run, Undisturbed, Apply, Enabled, ReserveRows, ChooseTakerMaker, UniqueKeys, Quiescent, Fair;
    ReleaseUndoes(s, b, a, now);
    NextStep(s1, steps[1..], s', market, until);
    OnlyStep(s1, steps[1], market, until);
    assert steps[1..][1..] == steps[2..];
    NextStep(s2, steps[2..], s', market, until);
    OnlyStep(s2, steps[2], market, until);
    assert steps[2..][1..] == steps[3..];
    assert PollsOnce(steps, market, 3);
    tick := Tick(3, s, None);
  }

  lemma StaticReady(s: State, market: Market, now: int, b: nat, a: nat, ps: int, amounts: int)
    requires Static(s, market, now, ps, amounts) && Matched(s.db.rows, market, b, a)
    ensures Swept(s, now) == s && Ready(s, market, now, b, a)
    ensures HasRoom(s.db.rows[b]) && HasRoom(s.db.rows[a])
    ensures Convertible(ChooseTakerMaker(s.db.rows[b], s.db.rows[a]), ps, amounts)
  {
    NothingExpires(s.db.rows, now);
    hide Inv, InStep, ExpireRows, ChooseTakerMaker, Convertible;
  }

  lemma CrossedRest(s: State, market: Market, b: nat, a: nat, now: int, until: int, ps: int, amounts: int)
    returns (mid: State)
    requires Static(s, market, until, ps, amounts) && now <= until && Matched(s.db.rows, market, b, a)
    ensures Run(AfterAcquire(s, b, a, now), Rest(), mid) && mid.matchers == [Idle]
    ensures mid.db.rows == AfterMatch(s.db.rows, b, a) && Extends(s.db.trades, mid.db.trades, FillAt(s.db.rows, b, a))
    ensures Static(mid, market, until, ps, amounts)
    ensures Run(s, [Acquire(0, market, now, Some(b), Some(a))] + Rest(), mid)
  {
    hide Run, Static, InStep, AfterMatch, Extends, FillAt, IsBest, AfterAcquire, Ready, Convertible, Rest;
    Sooner(s, market, now, until, ps, amounts);
    StaticReady(s, market, now, b, a, ps, amounts);
    mid := RecordingTick(s, market, now, b, a, ps, amounts);
    StaysStatic(s, [Acquire(0, market, now, Some(b), Some(a))] + Rest(), mid, market, b, a, until, ps, amounts);
  }

  /** A tick whose pair crosses records it. */
  lemma CrossedTick(s: State, steps: seq<Step>, s': State, market: Market, b: nat, a: nat, now: int, until: int,
      ps: int, amounts: int) returns (tick: Tick)
    requires Static(s, market, until, ps, amounts) && now <= until && Matched(s.db.rows, market, b, a)
    requires steps != [] && steps[0].Acquire? && steps[0].market == market
    requires Run(AfterAcquire(s, b, a, now), steps[1..], s') && Undisturbed(steps[1..], market, until)
             && s'.matchers == [Idle]
    ensures TickOf(s, steps, s', market, tick) && Static(tick.mid, market, until, ps, amounts)
  {
    hide Run, Static, AfterMatch, Extends, FillAt, AfterAcquire, Undisturbed, TickOf, Rest, IsBest;
    MatchedRange(s.db.rows, market, b, a);
    RestFacts(s, b, a, now, market, until);
    hide Matched;
    var mid := CrossedRest(s, market, b, a, now, until, ps, amounts);
    SameTail(AfterAcquire(s, b, a, now), Rest(), mid, steps[1..], s', market, until);
    assert steps[1..][3..] == steps[4..];
    assert PollsOnce(steps, market, 4) by {
      assert forall i | 0 < i < 4 :: steps[i] == steps[1..][i - 1] == Rest()[i - 1];
    }
    PickedTick(s, steps, s', market, b, a, mid);
    tick := Tick(4, mid, Some((b, a)));
  }

  lemma PickedTick(s: State, steps: seq<Step>, s': State, market: Market, b: nat, a: nat, mid: State)
    requires Matched(s.db.rows, market, b, a) && PollsOnce(steps, market, 4) && Run(mid, steps[4..], s')
             && mid.matchers == [Idle]
    requires mid.db.rows == AfterMatch(s.db.rows, b, a) && Extends(s.db.trades, mid.db.trades, FillAt(s.db.rows, b, a))
    ensures TickOf(s, steps, s', market, Tick(4, mid, Some((b, a))))
  {
    hide Run, Extends, AfterMatch, FillAt, Quiescent;
  }

  /** The first tick of an undisturbed run from a static state. */
  lemma FirstTick(s: State, steps: seq<Step>, s': State, market: Market, until: int, ps: int, amounts: int)
    returns (tick: Tick)
    requires Static(s, market, until, ps, amounts) && steps != []
    requires Run(s, steps, s') && Undisturbed(steps, market, until) && s'.matchers == [Idle]
    ensures TickOf(s, steps, s', market, tick) && Static(tick.mid, market, until, ps, amounts)
  {
    var step := steps[0];
    StaticIdle(s, market, until, ps, amounts);
    hide Run, Apply, Enabled, Inv, Static, Matched, AfterAcquire, Undisturbed, TickOf, Fair, IsBest;
    NextStep(s, steps, s', market, until);
    OnlyStep(s, step, market, until);
    if step.bid.None? || step.ask.None? {
      tick := EmptyTick(s, steps, s', market, until, ps, amounts);
      PicklessTick(s, steps, s', market, tick, until, ps, amounts);
    } else {
      var b, a := AcquiredPair(s, step, market, until, ps, amounts);
      BestInRange(s.db.rows, market, b, a);
      if s.db.rows[b].ticks >= s.db.rows[a].ticks {
        assert Matched(s.db.rows, market, b, a) by { BestMatched(s.db.rows, market, b, a); }
        tick := CrossedTick(s, steps, s', market, b, a, step.now, until, ps, amounts);
      } else {
        tick := UncrossedTick(s, steps, s', market, b, a, step.now, until);
        PicklessTick(s, steps, s', market, tick, until, ps, amounts);
      }
    }
  }

  lemma PicklessTick(s: State, steps: seq<Step>, s': State, market: Market, tick: Tick, until: int, ps: int,
      amounts: int)
    requires Static(s, market, until, ps, amounts) && TickOf(s, steps, s', market, tick) && tick.pick == None
    ensures Static(tick.mid, market, until, ps, amounts)
  {
    hide Static, Run, Quiescent;
  }

  lemma StaticIdle(s: State, market: Market, until: int, ps: int, amounts: int)
    requires Static(s, market, until, ps, amounts)
    ensures s.matchers == [Idle] && Inv(s) && Room(s.db.rows)
  {
    hide Inv, InStep, Room, AllConvert;
  }

  lemma BestInRange(rows: seq<Order>, market: Market, b: nat, a: nat)
    requires IsBest(rows, market, Buy, b) && IsBest(rows, market, Sell, a)
    ensures b < |rows| && a < |rows|
  {
  }

  lemma BestMatched(rows: seq<Order>, market: Market, b: nat, a: nat)
    requires IsBest(rows, market, Buy, b) && IsBest(rows, market, Sell, a) && b < |rows| && a < |rows|
             && rows[b].ticks >= rows[a].ticks
    ensures Matched(rows, market, b, a)
  {
  }

  // ---------------------------------------------------------------- the drain of any undisturbed run

  lemma {:induction false} SizesExtend(older: seq<Trade>, mid: seq<Trade>, newer: seq<Trade>, size: int)
    requires Extends(older, mid, size) && |mid| <= |newer| && newer[..|mid|] == mid
    ensures |older| <= |newer| && newer[..|older|] == older
    ensures Sizes(newer[|older|..]) == size + Sizes(newer[|mid|..])
  {
    assert newer[..|older|] == mid[..|older|];
    assert newer[|older|] == mid[|older|];
    assert newer[|older|..][1..] == newer[|mid|..];
  }

  /** What an undisturbed run makes of a static book: successive best-pair matches, one trade row
      each, of the sizes of those matches. */
  ghost predicate Drains(s: State, s': State, market: Market, picks: seq<(nat, nat)>) {
    && Drained(s.db.rows, market, picks, s'.db.rows)
    && |s'.db.trades| == |s.db.trades| + |picks| && s'.db.trades[..|s.db.trades|] == s.db.trades
    && Sizes(s'.db.trades[|s.db.trades|..]) == Volume(s.db.rows, market, picks, s'.db.rows)
  }

  lemma DrainsMore(s: State, mid: State, s': State, market: Market, b: nat, a: nat, picks: seq<(nat, nat)>)
    requires Matched(s.db.rows, market, b, a) && mid.db.rows == AfterMatch(s.db.rows, b, a)
    requires Extends(s.db.trades, mid.db.trades, FillAt(s.db.rows, b, a)) && Drains(mid, s', market, picks)
    ensures Drains(s, s', market, [(b, a)] + picks)
  {
    SizesExtend(s.db.trades, mid.db.trades, s'.db.trades, FillAt(s.db.rows, b, a));
    assert ([(b, a)] + picks)[1..] == picks;
    hide AfterMatch, FillAt, Sizes;
  }

  lemma DrainsNone(s: State, market: Market)
    ensures Drains(s, s, market, [])
  {
    assert s.db.trades[|s.db.trades|..] == [];
  }

  lemma {:induction false} RunDrains(s: State, steps: seq<Step>, s': State, market: Market, until: int, ps: int,
      amounts: int) returns (picks: seq<(nat, nat)>)
    requires Static(s, market, until, ps, amounts)
    requires Run(s, steps, s') && Undisturbed(steps, market, until) && s'.matchers == [Idle]
    ensures Drains(s, s', market, picks) && Static(s', market, until, ps, amounts)
    decreases |steps|
  {
    if steps == [] {
      assert s' == s;
      DrainsNone(s, market);
      picks := [];
    } else {
      hide Run, Static, Matched, AfterMatch, Extends, Quiescent, Drains, Fair;
      var tick := FirstTick(s, steps, s', market, until, ps, amounts);
      picks := RunDrains(tick.mid, steps[tick.length..], s', market, until, ps, amounts);
      if tick.pick.Some? {
        DrainsMore(s, tick.mid, s', market, tick.pick.value.0, tick.pick.value.1, picks);
        picks := [tick.pick.value] + picks;
      }
    }
  }

  lemma StaticVolume(s: State, steps: seq<Step>, s': State, market: Market, until: int, ps: int, amounts: int)
    requires Static(s, market, until, ps, amounts)
    requires Run(s, steps, s') && Undisturbed(steps, market, until) && s'.matchers == [Idle]
    ensures DrainOutcome(s, s', market)
  {
    var picks := RunDrains(s, steps, s', market, until, ps, amounts);
    hide Run, AllConvert, Inv, InStep, Room, MaxCross, Quiescent, Sizes, Volume, Count;
    DrainTerminates(s.db.rows, market, picks, s'.db.rows);
    if Quiescent(s'.db.rows, market) { DrainVolume(s.db.rows, market, picks, s'.db.rows); }
  }

  /** At most bids + asks - 1 trades were appended, none if a side is empty, and if nothing crosses
      any more their sizes sum to the most that any single price could have traded at the start. */
  ghost predicate DrainOutcome(s: State, s': State, market: Market) {
    && |s.db.trades| <= |s'.db.trades| && s'.db.trades[..|s.db.trades|] == s.db.trades
    && var recorded := |s'.db.trades| - |s.db.trades|;
       && (recorded == 0 || recorded + 1 <= Count(s.db.rows, market, Buy) + Count(s.db.rows, market, Sell))
       && (Count(s.db.rows, market, Buy) == 0 || Count(s.db.rows, market, Sell) == 0 ==> recorded == 0)
       && (Quiescent(s'.db.rows, market) ==> MaxCross(s.db.rows, market, Sizes(s'.db.trades[|s.db.trades|..])))
  }

  // ---------------------------------------------------------------- how soon it stops

  lemma PolledTick(steps: seq<Step>, market: Market, length: nat)
    requires PollsOnce(steps, market, length)
    ensures |Polled(steps)| == 1 + |Polled(steps[length..])|
  {
    assert steps == steps[..length] + steps[length..];
    PolledConcat(steps[..length], steps[length..]);
    assert steps[..length][1..] == steps[1..length];
    PolledNone(steps[1..length]);
  }

  lemma {:induction false} PolledNone(steps: seq<Step>)
    requires forall i | 0 <= i < |steps| :: !steps[i].Acquire?
    ensures Polled(steps) == []
  {
    if steps != [] {
      PolledNone(steps[1..]);
    }
  }

  /** A quiescent book is left alone. */
  lemma {:induction false} StaysQuiescent(s: State, steps: seq<Step>, s': State, market: Market, until: int, ps: int,
      amounts: int)
    requires Static(s, market, until, ps, amounts) && Quiescent(s.db.rows, market)
    requires Run(s, steps, s') && Undisturbed(steps, market, until) && s'.matchers == [Idle]
    ensures s' == s
    decreases |steps|
  {
    if steps != [] {
      hide Run, Static, Fair, IsBest;
      var tick := FirstTick(s, steps, s', market, until, ps, amounts);
      if tick.pick.Some? {
        NoMatch(s.db.rows, market, tick.pick.value.0, tick.pick.value.1);
      } else {
        hide Quiescent;
        StaysQuiescent(s, steps[tick.length..], s', market, until, ps, amounts);
      }
    }
  }

  lemma NoMatch(rows: seq<Order>, market: Market, b: nat, a: nat)
    requires Quiescent(rows, market)
    ensures !Matched(rows, market, b, a)
  {
  }

  lemma EmptyIsQuiescent(rows: seq<Order>, market: Market)
    requires Count(rows, market, Buy) + Count(rows, market, Sell) == 0
    ensures Quiescent(rows, market)
  {
    forall i | 0 <= i < |rows| ensures !Resting(rows[i], market, Buy) {
      if Resting(rows[i], market, Buy) { CountPositive(rows, market, Buy, i); }
    }
  }

  /** Every poll of a book that is not quiescent takes an order out of it. */
  lemma {:induction false} PollsDrain(s: State, steps: seq<Step>, s': State, market: Market, until: int, ps: int,
      amounts: int)
    requires Static(s, market, until, ps, amounts)
    requires Run(s, steps, s') && Undisturbed(steps, market, until) && s'.matchers == [Idle]
    requires |Polled(steps)| >= Count(s.db.rows, market, Buy) + Count(s.db.rows, market, Sell)
    ensures Quiescent(s'.db.rows, market)
    decreases |steps|
  {
    StaticIdle(s, market, until, ps, amounts);
    if steps == [] {
      EmptyIsQuiescent(s.db.rows, market);
    } else {
      hide Run, Static, Fair, IsBest, Quiescent, Count, AfterMatch, FillAt, Extends, PollsOnce, Polled, Room, Inv,
          Matched;
      var tick := FirstTick(s, steps, s', market, until, ps, amounts);
      PolledTick(steps, market, tick.length);
      if tick.pick.Some? {
        MatchFillsOne(s.db.rows, market, tick.pick.value.0, tick.pick.value.1);
        PollsDrain(tick.mid, steps[tick.length..], s', market, until, ps, amounts);
      } else {
        StaysQuiescent(s, steps[tick.length..], s', market, until, ps, amounts);
      }
    }
  }

  /** Drain volume and termination over runs. Let one matcher tick a reachable static book
      undisturbed, in any way and for as long as it likes, and be idle again: its trades are as
      many and as large as DrainOutcome says. Once it has polled the market as often as there were
      bids and asks, nothing crosses any more, and its trades sum to exactly the most that any
      single price could have traded at the start. */
  lemma RunVolume(before: seq<Step>, s: State, steps: seq<Step>, s': State, market: Market, until: int, ps: int,
      amounts: int)
    requires Run(Initial(1), before, s) && StaticBook(s, market, until, ps, amounts)
    requires Run(s, steps, s') && Undisturbed(steps, market, until) && s'.matchers == [Idle]
    ensures DrainOutcome(s, s', market)
    ensures |Polled(steps)| >= Count(s.db.rows, market, Buy) + Count(s.db.rows, market, Sell)
            ==> && Quiescent(s'.db.rows, market)
                && MaxCross(s.db.rows, market, Sizes(s'.db.trades[|s.db.trades|..]))
  {
    hide Run, Inv, StaticBook, Undisturbed, MaxCross, Sizes, Count, Quiescent, Polled;
    InitialInv(1);
    RunKeepsInv(Initial(1), before, s);
    StaticVolume(s, steps, s', market, until, ps, amounts);
    if |Polled(steps)| >= Count(s.db.rows, market, Buy) + Count(s.db.rows, market, Sell) {
      PollsDrain(s, steps, s', market, until, ps, amounts);
    }
  }

  /** Such runs exist: from every static book some undisturbed run leads to quiescence. */
  lemma {:induction false} RunReachesQuiescence(s: State, market: Market, until: int, ps: int, amounts: int)
    returns (steps: seq<Step>, s': State)
    requires Static(s, market, until, ps, amounts)
    ensures Run(s, steps, s') && Undisturbed(steps, market, until) && s'.matchers == [Idle]
            && Quiescent(s'.db.rows, market)
    decreases Count(s.db.rows, market, Buy) + Count(s.db.rows, market, Sell)
  {
    StaticIdle(s, market, until, ps, amounts);
    RunNone(s);
    if Quiescent(s.db.rows, market) {
      return [], s;
    }
    hide Run, Static, AfterMatch, Quiescent, Count, Room, Fair, IsBest, FillAt, Extends, Inv, AfterAcquire;
    var b, a := CrossingBest(s.db.rows, market);
    var mid := CrossedRest(s, market, b, a, until, until, ps, amounts);
    var first := [Acquire(0, market, until, Some(b), Some(a))] + Rest();
    MatchFillsOne(s.db.rows, market, b, a);
    var rest;
    rest, s' := RunReachesQuiescence(mid, market, until, ps, amounts);
    RunConcat(s, first, mid, rest, s');
    steps := first + rest;
    AllFair(market, until, b, a, rest);
  }

  lemma AllFair(market: Market, until: int, b: nat, a: nat, rest: seq<Step>)
    requires Undisturbed(rest, market, until)
    ensures Undisturbed([Acquire(0, market, until, Some(b), Some(a))] + Rest() + rest, market, until)
  {
  }

  lemma {:induction false} PolledHas(steps: seq<Step>, i: nat)
    requires i < |steps| && steps[i].Acquire?
    ensures steps[i].market in Polled(steps)
  {
    if i > 0 {
      assert steps[1..][i - 1] == steps[i];
      PolledHas(steps[1..], i - 1);
    }
  }

  /** The engine's own ticks of one market in good weather are an undisturbed run, so RunVolume
      speaks of them. */
  lemma GoodWeatherIsUndisturbed(steps: seq<Step>, market: Market, until: int)
    requires forall m | m in Polled(steps) :: m == market
    requires forall i | 0 <= i < |steps| :: exists w :: GoodWeather(w, until) && Obeys(steps[i], w)
    ensures Undisturbed(steps, market, until)
  {
    forall i | 0 <= i < |steps| ensures Fair(steps[i], market, until) {
      if steps[i].Acquire? { PolledHas(steps, i); }
    }
  }

  predicate GoodWeather(w: Weather, until: int) {
    w.now <= until && w.transport == Delivered && w.failOk && w.recordOk && w.recordHeard && w.releaseOk
  }

  /** Draining with the engine itself: polling a static market in good weather at least as often as
      it has bids and asks leaves nothing crossing, and the trades recorded sum to exactly the most
      that any single price could have traded. */
  method DrainMarket(engine: Engine, polls: seq<(Market, Weather)>, market: Market, ghost until: int,
                     ghost ps: int, ghost amounts: int, ghost before: seq<Step>, ghost s: State)
    requires engine.orders.Valid() && Views(s, engine.orders.Contents(), engine.executor.executions)
    requires Protocol.Run(Initial(1), before, s) && StaticBook(s, market, until, ps, amounts)
    requires forall i | 0 <= i < |polls| :: polls[i].0 == market && GoodWeather(polls[i].1, until)
    requires |polls| >= Count(s.db.rows, market, Buy) + Count(s.db.rows, market, Sell)
    modifies engine.orders, engine.executor
    ensures Quiescent(engine.orders.rows, market)
    ensures |engine.orders.trades| >= |old(engine.orders.trades)|
    ensures MaxCross(old(engine.orders.rows), market, Sizes(engine.orders.trades[|old(engine.orders.trades)|..]))
  {
    hide Protocol.Run, StaticBook, Quiescent, MaxCross, Sizes, Count, Undisturbed, UniqueKeys;
    ghost var steps, s' := engine.Run(polls, s);
    EnginePolls(steps, polls, market, until);
    RunVolume(before, s, steps, s', market, until, ps, amounts);
  }

  lemma EnginePolls(steps: seq<Step>, polls: seq<(Market, Weather)>, market: Market, until: int)
    requires forall i | 0 <= i < |polls| :: polls[i].0 == market && GoodWeather(polls[i].1, until)
    requires Polled(steps) == seq(|polls|, i requires 0 <= i < |polls| => polls[i].0)
    requires forall i | 0 <= i < |steps| :: exists j :: 0 <= j < |polls| && Obeys(steps[i], polls[j].1)
    ensures Undisturbed(steps, market, until) && |Polled(steps)| == |polls|
  {
    hide Obeys, Undisturbed, GoodWeather;
    GoodWeatherIsUndisturbed(steps, market, until);
  }
}

/** The tick after an unrecorded match lost one of its orders to a newcomer, a cancel or an expiry:
    exactly when it records a trade that never happened. */
module Displaced {
  import opened Backing
  import opened ExactlyOnce
  import opened MatchRules
  import opened Orders
  import opened Protocol
  import opened Recovery
  import opened Runs
  import opened Ticks
  import opened Wrappers

  // ---------------------------------------------------------------- any tick that submits

  lemma UnfilledMore(s: State, steps: seq<Step>, mid: State, step: Step)
    requires UnfilledRun(s, steps, mid) && Enabled(mid, step) && Unfilled(step)
    ensures UnfilledRun(s, steps + [step], Apply(mid, step))
  {
    hide Run, Enabled, Apply;
    RunAppend(s, steps, mid, step);
  }

  /** The state in which the tick's pair is submitted. */
  function Submitted(s: State, now: int, c: Candidate, units: Units, fill: int): State {
    s.(db := s.db.(rows := ReserveRows(ExpireRows(s.db.rows, now), Ids(c))),
      matchers := [Busy(c, Submitting(units.amount, fill))])
  }

  lemma TickSubmits(s: State, market: Market, now: int, b: nat, a: nat, c: Candidate, units: Units, fill: int)
    requires s.matchers == [Idle] && b < |s.db.rows| && a < |s.db.rows|
    requires Enabled(s, Acquire(0, market, now, Some(b), Some(a)))
    requires c == ChooseTakerMaker(ExpireRows(s.db.rows, now)[b], ExpireRows(s.db.rows, now)[a])
             && Decide(c, now) == Submit(units, fill)
    ensures var s1 := Apply(s, Acquire(0, market, now, Some(b), Some(a)));
            Enabled(s1, Check(0)) && Apply(s1, Check(0)) == Submitted(s, now, c, units, fill)
  {
    var live := ExpireRows(s.db.rows, now);
    assert IsBest(live, market, Buy, b) && IsBest(live, market, Sell, a);
    hide ExpireRows, ReserveRows, ChooseTakerMaker, Decide, IsBest, Enabled, Apply;
    AcquireHeads(s, 0, market, now, b, a, live, c);
    CheckSubmits(Apply(s, Acquire(0, market, now, Some(b), Some(a))), c, now, units, fill);
  }

  lemma SubmittedEnabled(s: State, now: int, c: Candidate, units: Units, fill: int)
    ensures AtSubmission(Submitted(s, now, c, units, fill))
            && Enabled(Submitted(s, now, c, units, fill), Send(0, Delivered))
  {
    hide ReserveRows, ExpireRows;
  }

  /** Any good-weather tick of an idle, backed state that decides to submit records one trade, and
      the trade has its match exactly when that match was already unrecorded, or its fill fits into
      what the unrecorded matches leave of both orders. */
  lemma TickBackedIff(steps: seq<Step>, s: State, market: Market, now: int, b: nat, a: nat, c: Candidate, units: Units,
      fill: int)
    returns (s': State)
    requires UnfilledRun(Initial(1), steps, s) && Backed(s) && s.matchers == [Idle] && b < |s.db.rows|
             && a < |s.db.rows|
    requires Enabled(s, Acquire(0, market, now, Some(b), Some(a)))
    requires c == ChooseTakerMaker(ExpireRows(s.db.rows, now)[b], ExpireRows(s.db.rows, now)[a])
             && Decide(c, now) == Submit(units, fill)
    ensures Run(s, [Acquire(0, market, now, Some(b), Some(a)), Check(0), Send(0, Delivered), Record(0, true)], s')
    ensures s'.matchers == [Idle] && |s'.db.trades| == |s.db.trades| + 1
    ensures Backed(s') <==> || MatchOf(c, units.amount, fill) in s.unrecorded
                            || (!Exceeds(c.taker, s.unrecorded, fill) && !Exceeds(c.maker, s.unrecorded, fill))
  {
    hide UnfilledRun, Run, Enabled, Apply, Decide, ChooseTakerMaker, ExpireRows, ReserveRows, Exceeds;
    var first := Acquire(0, market, now, Some(b), Some(a));
    TickSubmits(s, market, now, b, a, c, units, fill);
    var s1, s2 := Apply(s, first), Submitted(s, now, c, units, fill);
    UnfilledMore(Initial(1), steps, s, first);
    UnfilledMore(Initial(1), steps + [first], s1, Check(0));
    SubmittedEnabled(s, now, c, units, fill);
    var s3 := Apply(s2, Send(0, Delivered));
    NoneBetween(s3);
    s' := RecordingIsBackedIff(steps + [first] + [Check(0)], s2, [], s3);
    SendForm(s2, 0, Delivered);
    FourSteps(s, first, s1, Check(0), s2, Send(0, Delivered), s3, Record(0, true), s');
  }

  lemma NoneBetween(s: State)
    ensures UnfilledRun(s, [], s)
  {
  }

  // ---------------------------------------------------------------- one order shared with one unrecorded match

  lemma {:induction false} FillApart(es: seq<Execution>, id: string)
    requires !NamedBy(es, id)
    ensures FillSum(es, id) == 0
  {
    if es != [] {
      assert !es[|es| - 1].Names(id);
      assert forall i | 0 <= i < |es| - 1 :: es[..|es| - 1][i] == es[i];
      FillApart(es[..|es| - 1], id);
    }
  }

  lemma {:induction false} FillOnce(es: seq<Execution>, e: Execution, id: string)
    requires e in es && e.Names(id) && AllApart(es)
    ensures FillSum(es, id) == e.fill
  {
    var n := |es| - 1;
    var front := es[..n];
    assert forall i | 0 <= i < n :: front[i] == es[i];
    if es[n].Names(id) {
      forall i | 0 <= i < n ensures !front[i].Names(id) {
        assert Apart(es[i], es[n]);
      }
      FillApart(front, id);
    } else {
      FillOnce(front, e, id);
    }
  }

  /** One head belongs to the unrecorded match e, the other to none. */
  ghost predicate Shares(es: seq<Execution>, e: Execution, y: Order, z: Order) {
    e in es && e.Names(y.orderId) && AllApart(es) && !NamedBy(es, z.orderId)
  }

  /** Then the trade has its match exactly when the two fills together fit the shared order. */
  lemma SharedTick(steps: seq<Step>, s: State, market: Market, now: int, b: nat, a: nat, e: Execution, y: Order,
      z: Order)
    returns (s': State)
    requires UnfilledRun(Initial(1), steps, s) && Backed(s) && s.matchers == [Idle] && b < |s.db.rows|
             && a < |s.db.rows|
    requires Enabled(s, Acquire(0, market, now, Some(b), Some(a))) && Shares(s.unrecorded, e, y, z)
    requires var live := ExpireRows(s.db.rows, now); (live[b] == y && live[a] == z) || (live[b] == z && live[a] == y)
    requires y.side != z.side && Decide(ChooseTakerMaker(y, z), now).Submit? && y.orderId != z.orderId
    ensures Run(s, [Acquire(0, market, now, Some(b), Some(a)), Check(0), Send(0, Delivered), Record(0, true)], s')
    ensures s'.matchers == [Idle] && |s'.db.trades| == |s.db.trades| + 1
    ensures Backed(s') <==> e.fill + FillOf(ChooseTakerMaker(y, z)) <= y.desired - y.filled
  {
    var c := ChooseTakerMaker(y, z);
    ChoiceIgnoresOrder(y, z);
    hide UnfilledRun, Run, Enabled, Decide, ChooseTakerMaker, ExpireRows, Backed, FillSum, StringAfter, Proportional;
    SubmitMeans(c, now);
    var (units, fill) := (Decide(c, now).units, Decide(c, now).fill);
    FillOnce(s.unrecorded, e, y.orderId);
    FillApart(s.unrecorded, z.orderId);
    NotAmong(s.unrecorded, c, units.amount, fill, z);
    s' := TickBackedIff(steps, s, market, now, b, a, c, units, fill);
  }

  lemma NotAmong(es: seq<Execution>, c: Candidate, units: int, fill: int, z: Order)
    requires !NamedBy(es, z.orderId) && (c.taker == z || c.maker == z)
    ensures MatchOf(c, units, fill) !in es
  {
    forall i | 0 <= i < |es| ensures es[i] != MatchOf(c, units, fill) {
      assert !es[i].Names(z.orderId);
    }
  }

  // ---------------------------------------------------------------- what displaces the partner

  /** In a calm state e is unrecorded and its orders are back in the book as rows x and y. */
  ghost predicate Waiting(steps: seq<Step>, s: State, e: Execution, x: nat, y: nat) {
    CalmRun(Initial(1), steps, s) && (Missing(s, e, x, y) || Missing(s, e, y, x))
  }

  /** What the calm invariant says of the two rows. */
  ghost predicate Front(rows: seq<Order>, es: seq<Execution>, e: Execution, x: nat, y: nat) {
    && UniqueKeys(rows) && x < |rows| && y < |rows| && x != y && e in es && AllApart(es)
    && e.Names(rows[x].orderId) && e.Names(rows[y].orderId)
    && rows[x].side != rows[y].side && rows[x].market == rows[y].market
    && rows[x].status == Active && rows[y].status == Active && Top(rows, rows[x]) && Top(rows, rows[y])
  }

  lemma WaitingFacts(steps: seq<Step>, s: State, e: Execution, x: nat, y: nat)
    requires Waiting(steps, s, e, x, y)
    ensures Inv(s) && Once(s) && s.matchers == [Idle] && UnfilledRun(Initial(1), steps, s) && Backed(s)
    ensures Front(s.db.rows, s.unrecorded, e, x, y) && Pendings(s.db.rows, s.unrecorded)
  {
    hide Inv, Once, CalmRun, Decided, Top, UniqueKeys, Pendings, Accounts, Creation, PhaseOnce, Run, Unfilled;
    CalmRunsAreReady(steps, s);
    CalmIsUnfilled(Initial(1), steps, s);
    OnceParts(s);
    Keys(s);
    AccountsBack(s);
    PendingsApart(s.db.rows, s.unrecorded);
    if Missing(s, e, x, y) { MissingPending(s, e, x, y); } else { MissingPending(s, e, y, x); }
    hide NamedBy;
    assert x != y;
  }

  lemma AccountsBack(s: State)
    requires Accounts(s.executions, s.settled, s.unrecorded)
    ensures Backed(s)
  {
    hide Used;
  }

  lemma PendingsApart(rows: seq<Order>, es: seq<Execution>)
    requires Pendings(rows, es)
    ensures AllApart(es)
  {
    hide Pending;
  }

  lemma {:induction false} CalmIsUnfilled(s: State, steps: seq<Step>, s': State)
    requires CalmRun(s, steps, s')
    ensures UnfilledRun(s, steps, s')
    decreases |steps|
  {
    if steps != [] {
      assert Unfilled(steps[0]);
      hide Apply, Enabled, Calm, Unfilled;
      CalmIsUnfilled(Apply(s, steps[0]), steps[1..], s');
      assert forall i | 0 <= i < |steps| :: steps[i] == if i == 0 then steps[0] else steps[1..][i - 1];
    }
  }

  /** Two tops on the two sides are the only heads a tick can read. */
  lemma TopsAreHeads(rows: seq<Order>, market: Market, b: nat, a: nat, i: nat, j: nat)
    requires UniqueKeys(rows) && IsBest(rows, market, Buy, b) && IsBest(rows, market, Sell, a)
    requires i < |rows| && j < |rows| && rows[i].side != rows[j].side && rows[i].market == rows[j].market == market
    requires rows[i].status == Active && rows[j].status == Active && Top(rows, rows[i]) && Top(rows, rows[j])
    ensures (b == i && a == j) || (b == j && a == i)
  {
    hide Top, UniqueKeys;
    if rows[i].side.Buy? {
      TopIsBest(rows, market, Buy, b, i);
      TopIsBest(rows, market, Sell, a, j);
    } else {
      TopIsBest(rows, market, Buy, b, j);
      TopIsBest(rows, market, Sell, a, i);
    }
  }

  lemma NewcomerOnTop(rows: seq<Order>, o: Order, x: nat, y: nat)
    requires UniqueKeys(rows)
    requires x < |rows| && y < |rows| && rows[x].side != rows[y].side && Top(rows, rows[x]) && Top(rows, rows[y])
    requires SameBook(o, rows[x]) && Ahead(o, rows[x])
    ensures Top(rows + [o], o) && Top(rows + [o], rows[y])
  {
    forall j | 0 <= j < |rows| && Resting(rows[j], o.market, o.side)
        && rows[j].orderId != o.orderId ensures Ahead(o, rows[j]) {
      if rows[j].orderId == rows[x].orderId { IndexIsUnique(rows, j, x); } else { assert Ahead(rows[x], rows[j]); }
    }
  }

  lemma SweptTop(rows: seq<Order>, now: int, i: nat)
    requires UniqueKeys(rows) && i < |rows| && Top(rows, rows[i]) && rows[i].status == Active && !rows[i].IsExpired(now)
    ensures var live := ExpireRows(rows, now); live[i] == rows[i] && Top(live, live[i])
  {
    hide Top, UniqueKeys, NoNewRivals, Thins;
    ExpireThins(rows, now);
    ThinsTop(rows, ExpireRows(rows, now), rows[i]);
    TopKept(rows, ExpireRows(rows, now), rows[i]);
  }

  lemma SweptKeys(rows: seq<Order>, now: int)
    requires UniqueKeys(rows)
    ensures UniqueKeys(ExpireRows(rows, now))
  {
  }

  lemma AppendedKeys(rows: seq<Order>, o: Order)
    requires UniqueKeys(rows) && !Clashes(rows, o)
    ensures UniqueKeys(rows + [o]) && !HasId(rows, o.orderId)
  {
  }

  /** A newcomer ahead of one order of a waiting match: whatever heads the next tick of the market
      reads, they are the newcomer and the match's other order. If that pair is submitted, the trade
      recorded has its match exactly when the waiting match's fill and this one together fit into
      what is left of the order they share. */
  lemma ArrivalAhead(steps: seq<Step>, s: State, e: Execution, x: nat, y: nat, o: Order, now: int, b: nat, a: nat)
    returns (s': State)
    requires Waiting(steps, s, e, x, y) && y < |s.db.rows| && x < |s.db.rows|
    requires Sound(o) && o.filled == 0 && o.status == Active && !Clashes(s.db.rows, o) && !o.IsExpired(now)
    requires SameBook(o, s.db.rows[x]) && Ahead(o, s.db.rows[x]) && !s.db.rows[y].IsExpired(now)
    requires Enabled(s, Create(o)) && Enabled(Apply(s, Create(o)), Acquire(0, o.market, now, Some(b), Some(a)))
    requires Decide(ChooseTakerMaker(s.db.rows[y], o), now).Submit?
    ensures Run(Apply(s, Create(o)),
            [Acquire(0, o.market, now, Some(b), Some(a)), Check(0), Send(0, Delivered), Record(0, true)], s')
    ensures s'.matchers == [Idle] && |s'.db.trades| == |s.db.trades| + 1
    ensures Backed(s')
            <==> e.fill + FillOf(ChooseTakerMaker(s.db.rows[y], o)) <= s.db.rows[y].desired - s.db.rows[y].filled
  {
    var (rows, s1, n) := (s.db.rows, Apply(s, Create(o)), |s.db.rows|);
    WaitingFacts(steps, s, e, x, y);
    Created(s, o);
    var rows1 := s1.db.rows;
    var live := ExpireRows(rows1, now);
    assert IsBest(live, o.market, Buy, b) && IsBest(live, o.market, Sell, a);
    hide Waiting, Inv, Once, UnfilledRun, Backed, Run, Apply, Enabled, Pendings, IsBest, ExpireRows, Decide,
        ChooseTakerMaker, Clashes, Ahead, UniqueKeys, Top;
    NewcomerOnTop(rows, o, x, y);
    AppendedKeys(rows, o);
    SweptTop(rows1, now, y);
    SweptTop(rows1, now, n);
    SweptKeys(rows1, now);
    TopsAreHeads(live, o.market, b, a, y, n);
    StrangerUnnamed(rows, s.unrecorded, o.orderId);
    UnfilledMore(Initial(1), steps, s, Create(o));
    SameBacking(s, s1);
    s' := SharedTick(steps + [Create(o)], s1, o.market, now, b, a, e, rows[y], o);
  }

  lemma Created(s: State, o: Order)
    requires Sound(o) && o.status == Active && !Clashes(s.db.rows, o)
    ensures Enabled(s, Create(o))
    ensures Apply(s, Create(o)) == s.(db := s.db.(rows := s.db.rows + [o]), born := s.born[o.orderId := o])
  {
    assert o.(status := Active) == o;
    hide Clashes;
  }

  /** Nobody but x rests in x's place and is named by an unrecorded match. */
  lemma OthersUnnamed(rows: seq<Order>, es: seq<Execution>, x: nat, z: nat)
    requires Pendings(rows, es) && UniqueKeys(rows) && x < |rows| && z < |rows| && z != x
    requires rows[x].status == Active && Top(rows, rows[x])
    requires rows[z].status == Active && SameBook(rows[z], rows[x])
    ensures !NamedBy(es, rows[z].orderId)
  {
    OneTop(rows, x, z);
    forall i | 0 <= i < |es| ensures !es[i].Names(rows[z].orderId) {
      if es[i].Names(rows[z].orderId) {
        NamedIsTop(rows, es[i], z);
      }
    }
  }

  lemma NamedIsTop(rows: seq<Order>, e: Execution, z: nat)
    requires Pending(rows, e) && UniqueKeys(rows) && z < |rows| && e.Names(rows[z].orderId) && rows[z].status == Active
    ensures Top(rows, rows[z])
  {
    hide Decided, Top, UniqueKeys;
    var t: nat, m: nat :| PendingAt(rows, e, t, m);
    if rows[z].orderId == e.taker { IndexIsUnique(rows, z, t); } else { IndexIsUnique(rows, z, m); }
  }

  lemma OneTop(rows: seq<Order>, x: nat, z: nat)
    requires UniqueKeys(rows) && x < |rows| && z < |rows| && x != z && Top(rows, rows[x])
    requires rows[x].status == rows[z].status == Active && SameBook(rows[z], rows[x])
    ensures !Top(rows, rows[z])
  {
    assert rows[x].orderId != rows[z].orderId && Ahead(rows[x], rows[z]) && !Ahead(rows[z], rows[x]);
  }

  /** The partner is cancelled or expires; rows only leave the book. */
  predicate Leaves(s: State, step: Step, x: nat, y: nat) {
    && (step.Cancel? || step.Expire?) && Enabled(s, step)
    && var rows := Apply(s, step).db.rows;
       |rows| == |s.db.rows| && x < |rows| && y < |rows| && rows[x].status != Active && rows[y] == s.db.rows[y]
  }

  lemma LeavesThins(s: State, step: Step, x: nat, y: nat)
    requires Leaves(s, step, x, y)
    ensures Enabled(s, step)
    ensures var s' := Apply(s, step);
            && Thins(s.db.rows, s'.db.rows) && s' == s.(db := s'.db) && s'.db.trades == s.db.trades && Unfilled(step)
            && x < |s.db.rows| && y < |s.db.rows| && s'.db.rows[y] == s.db.rows[y] && s'.db.rows[x].status != Active
  {
    match step
    case Cancel(owner, nonce) => CancelThins(s.db.rows, owner, nonce);
    case Expire(now) => ExpireThins(s.db.rows, now);
  }

  lemma ThinKeys(rows: seq<Order>, rows': seq<Order>)
    requires UniqueKeys(rows) && Thins(rows, rows')
    ensures UniqueKeys(rows')
  {
  }

  /** The other order's row heads its side. */
  lemma StillHead(live: seq<Order>, market: Market, b: nat, a: nat, y: nat)
    requires UniqueKeys(live) && IsBest(live, market, Buy, b) && IsBest(live, market, Sell, a)
    requires y < |live| && live[y].status == Active && live[y].market == market && Top(live, live[y])
    ensures b < |live| && a < |live| && live[b].side.Buy? && live[a].side.Sell?
            && live[b].status == live[a].status == Active
    ensures live[b].market == live[a].market == market && (if live[y].side.Buy? then b == y else a == y)
  {
    if live[y].side.Buy? { TopIsBest(live, market, Buy, b, y); } else { TopIsBest(live, market, Sell, a, y); }
  }

  /** One order of a waiting match is cancelled or expires. If the next tick of the market reads two
      heads and submits them, the trade recorded has its match exactly when the waiting match's fill
      and this one together fit into what is left of the order that stayed. */
  lemma PartnerLeaves(steps: seq<Step>, s: State, e: Execution, x: nat, y: nat, step: Step, market: Market, now: int,
      b: nat, a: nat)
    returns (s': State)
    requires Waiting(steps, s, e, x, y) && Leaves(s, step, x, y) && y < |s.db.rows| && market == s.db.rows[y].market
    requires !s.db.rows[y].IsExpired(now) && Enabled(Apply(s, step), Acquire(0, market, now, Some(b), Some(a)))
    requires b < |s.db.rows| && a < |s.db.rows| && Decide(ChooseTakerMaker(s.db.rows[b], s.db.rows[a]), now).Submit?
    ensures Run(Apply(s, step), [Acquire(0, market, now, Some(b), Some(a)), Check(0), Send(0, Delivered),
            Record(0, true)], s')
    ensures s'.matchers == [Idle] && |s'.db.trades| == |s.db.trades| + 1 && (b == y || a == y)
    ensures Backed(s')
            <==> e.fill + FillOf(ChooseTakerMaker(s.db.rows[b],
              s.db.rows[a])) <= s.db.rows[y].desired - s.db.rows[y].filled
  {
    hide Waiting, Inv, Once, UnfilledRun, Backed, Run, Apply, Enabled, Pendings, IsBest, ExpireRows, Decide,
        ChooseTakerMaker, Front, Leaves, Thins;
    WaitingFacts(steps, s, e, x, y);
    LeavesThins(s, step, x, y);
    var (rows, s1) := (s.db.rows, Apply(s, step));
    HeadsRead(s1, market, now, b, a);
    AfterLeaving(rows, s1.db.rows, s.unrecorded, e, x, y, market, now, b, a);
    var z := if b == y then a else b;
    UnfilledMore(Initial(1), steps, s, step);
    SameBacking(s, s1);
    ChoiceIgnoresOrder(rows[y], rows[z]);
    s' := SharedTick(steps + [step], s1, market, now, b, a, e, rows[y], rows[z]);
  }

  lemma HeadsRead(s: State, market: Market, now: int, b: nat, a: nat)
    requires Enabled(s, Acquire(0, market, now, Some(b), Some(a)))
    ensures IsBest(ExpireRows(s.db.rows, now), market, Buy, b) && IsBest(ExpireRows(s.db.rows, now), market, Sell, a)
  {
  }

  /** Who the heads are once x has left: y's row, and an order no unrecorded match names. */
  lemma AfterLeaving(rows: seq<Order>, rows1: seq<Order>, es: seq<Execution>, e: Execution, x: nat, y: nat,
      market: Market, now: int, b: nat, a: nat)
    requires Front(rows, es, e, x, y) && Pendings(rows, es) && Thins(rows, rows1) && rows1[y] == rows[y]
             && rows1[x].status != Active
    requires market == rows[y].market && !rows[y].IsExpired(now)
    requires IsBest(ExpireRows(rows1, now), market, Buy, b) && IsBest(ExpireRows(rows1, now), market, Sell, a)
    ensures b < |rows| && a < |rows| && (b == y || a == y)
    ensures var (live, z) := (ExpireRows(rows1, now), if b == y then a else b);
            && live[y] == rows[y] && live[z] == rows[z] && rows[z].side != rows[y].side
              && rows[y].orderId != rows[z].orderId
            && Shares(es, e, rows[y], rows[z])
  {
    var live := ExpireRows(rows1, now);
    hide Pendings, IsBest, ExpireRows, Ahead, UniqueKeys, Top, NoNewRivals, Thins, NamedBy;
    ThinKeys(rows, rows1);
    ThinsTop(rows, rows1, rows[y]);
    ThinLength(rows, rows1);
    TopKept(rows, rows1, rows[y]);
    SweptTop(rows1, now, y);
    SweptKeys(rows1, now);
    StillHead(live, market, b, a, y);
    var z := if b == y then a else b;
    HeadPlace(rows, rows1, live, now, z, x, y);
    OthersUnnamed(rows, es, x, z);
    DistinctIds(rows, y, z);
  }

  lemma ThinLength(rows: seq<Order>, rows1: seq<Order>)
    requires Thins(rows, rows1)
    ensures |rows1| == |rows|
  {
  }

  lemma HeadPlace(rows: seq<Order>, rows1: seq<Order>, live: seq<Order>, now: int, z: nat, x: nat, y: nat)
    requires Thins(rows, rows1) && live == ExpireRows(rows1, now) && x < |rows| && z < |rows| && y < |rows|
    requires rows1[x].status != Active && live[z].status == Active && live[z].market == live[y].market
             && live[z].side != live[y].side
    requires live[y] == rows[y] && rows[x].market == rows[y].market && rows[x].side != rows[y].side
    ensures z != x && z != y && rows[z].status == Active && SameBook(rows[z], rows[x]) && live[z] == rows[z]
            && rows[z].side != rows[y].side
  {
  }
}

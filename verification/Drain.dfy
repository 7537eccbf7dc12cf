/** Ticking a static book to quiescence: how much trades, and how soon it stops. */
module Drain {
  import opened MatchRules
  import opened Orders
  import opened Runs

  /** Resting on the side, willing to trade at price p. */
  predicate Willing(o: Order, market: Market, side: Side, p: int) {
    Resting(o, market, side) && if side.Buy? then o.ticks >= p else o.ticks <= p
  }

  function Share(o: Order, market: Market, side: Side, p: int): int {
    if Willing(o, market, side, p) then Remaining(o) else 0
  }

  /** What the side would trade at price p. */
  function Depth(rows: seq<Order>, market: Market, side: Side, p: int): (d: int)
    ensures d >= 0
  {
    if rows == [] then 0
    else Depth(rows[..|rows| - 1], market, side, p) + Share(rows[|rows| - 1], market, side, p)
  }

  function Min(a: int, b: int): int { if a <= b then a else b }

  /** What a single price p could trade. */
  function Crossable(rows: seq<Order>, market: Market, p: int): int {
    Min(Depth(rows, market, Buy, p), Depth(rows, market, Sell, p))
  }

  /** v is the most that any single price could trade. */
  ghost predicate MaxCross(rows: seq<Order>, market: Market, v: int) {
    (forall p :: Crossable(rows, market, p) <= v) && exists p :: Crossable(rows, market, p) == v
  }

  /** Every resting order has room. */
  predicate Room(rows: seq<Order>) {
    forall i | 0 <= i < |rows| && rows[i].status == Active :: 0 <= rows[i].filled < rows[i].desired
  }

  function FillAt(rows: seq<Order>, b: nat, a: nat): int
    requires b < |rows| && a < |rows|
  {
    Min(Remaining(rows[b]), Remaining(rows[a]))
  }

  /** One matching tick: a best bid and a best ask cross and trade the smaller remainder. */
  predicate Matched(rows: seq<Order>, market: Market, b: nat, a: nat) {
    IsBest(rows, market, Buy, b) && IsBest(rows, market, Sell, a) && rows[b].ticks >= rows[a].ticks
  }

  function AfterMatch(rows: seq<Order>, b: nat, a: nat): seq<Order>
    requires b < |rows| && a < |rows|
  {
    rows[b := FilledRow(rows[b], FillAt(rows, b, a))][a := FilledRow(rows[a], FillAt(rows, b, a))]
  }

  /** Successive matching ticks, each on some best pair of the book the last one left. */
  predicate Drained(rows: seq<Order>, market: Market, picks: seq<(nat, nat)>, rows': seq<Order>)
    decreases |picks|
  {
    if picks == [] then rows' == rows
    else
      && Matched(rows, market, picks[0].0, picks[0].1)
      && Drained(AfterMatch(rows, picks[0].0, picks[0].1), market, picks[1..], rows')
  }

  function Volume(rows: seq<Order>, market: Market, picks: seq<(nat, nat)>, rows': seq<Order>): int
    requires Drained(rows, market, picks, rows')
    decreases |picks|
  {
    if picks == [] then 0
    else FillAt(rows, picks[0].0, picks[0].1) + Volume(AfterMatch(rows, picks[0].0, picks[0].1), market, picks[1..],
        rows')
  }

  // ---------------------------------------------------------------- depth under one change

  lemma {:induction false} DepthUpdate(rows: seq<Order>, market: Market, side: Side, p: int, i: nat, o: Order)
    requires i < |rows|
    ensures Depth(rows[i := o], market, side, p) == Depth(rows, market, side, p) - Share(rows[i], market, side,
            p) + Share(o, market, side, p)
  {
    var n := |rows| - 1;
    if i == n {
      assert rows[i := o][..n] == rows[..n];
    } else {
      assert rows[i := o][..n] == rows[..n][i := o];
      DepthUpdate(rows[..n], market, side, p, i, o);
    }
  }

  lemma {:induction false} DepthWitness(rows: seq<Order>, market: Market, side: Side, p: int) returns (i: nat)
    requires Depth(rows, market, side, p) > 0
    ensures i < |rows| && Willing(rows[i], market, side, p)
  {
    var n := |rows| - 1;
    if Share(rows[n], market, side, p) > 0 {
      i := n;
    } else {
      i := DepthWitness(rows[..n], market, side, p);
    }
  }

  lemma {:induction false} DepthAtLeast(rows: seq<Order>, market: Market, side: Side, p: int, i: nat)
    requires i < |rows|
    ensures Depth(rows, market, side, p) >= Share(rows[i], market, side, p)
  {
    var n := |rows| - 1;
    if i < n {
      DepthAtLeast(rows[..n], market, side, p, i);
    }
  }

  lemma MatchFacts(rows: seq<Order>, market: Market, b: nat, a: nat)
    requires Room(rows) && Matched(rows, market, b, a)
    ensures b != a && FillAt(rows, b, a) > 0 && Room(AfterMatch(rows, b, a))
    ensures var f := FillAt(rows, b, a);
            forall p ::
                && Share(FilledRow(rows[b], f), market, Buy, p) == Share(rows[b], market, Buy,
                  p) - (if rows[b].ticks >= p then f else 0)
                        && Share(FilledRow(rows[a], f), market, Sell, p) == Share(rows[a], market, Sell,
                          p) - (if rows[a].ticks <= p then f else 0)
                        && Share(FilledRow(rows[b], f), market, Sell, p) == Share(rows[b], market, Sell, p) == 0
                        && Share(FilledRow(rows[a], f), market, Buy, p) == Share(rows[a], market, Buy, p) == 0
  {
  }

  /** A match lowers each side's depth by the fill at the prices its order accepts. */
  lemma MatchDepths(rows: seq<Order>, market: Market, b: nat, a: nat, p: int)
    requires Room(rows) && Matched(rows, market, b, a)
    ensures var (f, rows') := (FillAt(rows, b, a), AfterMatch(rows, b, a));
            && Depth(rows', market, Buy, p) == Depth(rows, market, Buy, p) - (if rows[b].ticks >= p then f else 0)
            && Depth(rows', market, Sell, p) == Depth(rows, market, Sell, p) - (if rows[a].ticks <= p then f else 0)
  {
    var f := FillAt(rows, b, a);
    MatchFacts(rows, market, b, a);
    var (x, y) := (FilledRow(rows[b], f), FilledRow(rows[a], f));
    hide Depth, Share, FilledRow, Room, Matched;
    var mid := rows[b := x];
    assert mid[a] == rows[a];
    DepthUpdate(rows, market, Buy, p, b, x);
    DepthUpdate(mid, market, Buy, p, a, y);
    DepthUpdate(rows, market, Sell, p, b, x);
    DepthUpdate(mid, market, Sell, p, a, y);
  }

  /** Outside the spread between the best ask and the best bid one side has nothing to offer. */
  lemma OutsideSpread(rows: seq<Order>, market: Market, b: nat, a: nat, p: int)
    requires Matched(rows, market, b, a)
    ensures p > rows[b].ticks ==> Depth(rows, market, Buy, p) == 0
    ensures p < rows[a].ticks ==> Depth(rows, market, Sell, p) == 0
  {
    hide Depth;
    if p > rows[b].ticks && Depth(rows, market, Buy, p) > 0 {
      var i := DepthWitness(rows, market, Buy, p);
    }
    if p < rows[a].ticks && Depth(rows, market, Sell, p) > 0 {
      var i := DepthWitness(rows, market, Sell, p);
    }
  }

  /** A match takes its fill off what every price in the spread could trade, and leaves nothing to
      trade elsewhere. */
  lemma MatchCrossable(rows: seq<Order>, market: Market, b: nat, a: nat, p: int)
    requires Room(rows) && Matched(rows, market, b, a)
    ensures var rows' := AfterMatch(rows, b, a);
            if rows[a].ticks <= p <= rows[b].ticks then Crossable(rows, market, p) == Crossable(rows', market,
                p) + FillAt(rows, b, a)
            else Crossable(rows, market, p) == 0 && Crossable(rows', market, p) == 0
    ensures Crossable(AfterMatch(rows, b, a), market, p) >= 0
  {
    hide Depth, FillAt, AfterMatch, Room, IsBest;
    MatchDepths(rows, market, b, a, p);
    OutsideSpread(rows, market, b, a, p);
  }

  lemma MatchVolume(rows: seq<Order>, market: Market, b: nat, a: nat, v: int)
    requires Room(rows) && Matched(rows, market, b, a) && MaxCross(AfterMatch(rows, b, a), market, v)
    ensures MaxCross(rows, market, v + FillAt(rows, b, a))
  {
    var (rows', f) := (AfterMatch(rows, b, a), FillAt(rows, b, a));
    MatchFacts(rows, market, b, a);
    hide Crossable, AfterMatch, FillAt, Room, IsBest;
    forall p ensures Crossable(rows, market, p) <= v + f {
      MatchCrossable(rows, market, b, a, p);
      assert Crossable(rows', market, p) <= v;
    }
    var p :| Crossable(rows', market, p) == v;
    MatchCrossable(rows, market, b, a, p);
    if rows[a].ticks <= p <= rows[b].ticks {
      assert Crossable(rows, market, p) == v + f;
    } else {
      var q := rows[a].ticks;
      MatchCrossable(rows, market, b, a, q);
      assert Crossable(rows', market, q) <= v == 0;
      assert Crossable(rows, market, q) == v + f;
    }
  }

  lemma QuietVolume(rows: seq<Order>, market: Market)
    requires Quiescent(rows, market)
    ensures MaxCross(rows, market, 0)
  {
    hide Depth;
    forall p ensures Crossable(rows, market, p) == 0 {
      if Depth(rows, market, Buy, p) > 0 && Depth(rows, market, Sell, p) > 0 {
        var i := DepthWitness(rows, market, Buy, p);
        var j := DepthWitness(rows, market, Sell, p);
      }
    }
    hide Crossable;
    assert Crossable(rows, market, 0) == 0;
  }

  /** Drain volume: however ties are broken, ticking to quiescence trades in total exactly the
      most that any single price could trade on the starting book. */
  lemma {:induction false} DrainVolume(rows: seq<Order>, market: Market, picks: seq<(nat, nat)>, rows': seq<Order>)
    requires Room(rows) && Drained(rows, market, picks, rows') && Quiescent(rows', market)
    ensures MaxCross(rows, market, Volume(rows, market, picks, rows'))
    decreases |picks|
  {
    if picks == [] {
      QuietVolume(rows, market);
    } else {
      var (b, a) := picks[0];
      MatchFacts(rows, market, b, a);
      DrainVolume(AfterMatch(rows, b, a), market, picks[1..], rows');
      hide MaxCross, AfterMatch, FillAt, Room;
      MatchVolume(rows, market, b, a, Volume(AfterMatch(rows, b, a), market, picks[1..], rows'));
    }
  }

  // ---------------------------------------------------------------- termination

  function Count(rows: seq<Order>, market: Market, side: Side): nat {
    if rows == [] then 0
    else Count(rows[..|rows| - 1], market, side) + if Resting(rows[|rows| - 1], market, side) then 1 else 0
  }

  lemma {:induction false} CountUpdate(rows: seq<Order>, market: Market, side: Side, i: nat, o: Order)
    requires i < |rows|
    ensures Count(rows[i := o], market, side) == Count(rows, market, side)
              - (if Resting(rows[i], market, side) then 1 else 0) + (if Resting(o, market, side) then 1 else 0)
  {
    var n := |rows| - 1;
    if i == n {
      assert rows[i := o][..n] == rows[..n];
    } else {
      assert rows[i := o][..n] == rows[..n][i := o];
      CountUpdate(rows[..n], market, side, i, o);
    }
  }

  lemma {:induction false} CountPositive(rows: seq<Order>, market: Market, side: Side, i: nat)
    requires i < |rows| && Resting(rows[i], market, side)
    ensures Count(rows, market, side) >= 1
  {
    if i < |rows| - 1 {
      CountPositive(rows[..|rows| - 1], market, side, i);
    }
  }

  /** Each match completely fills at least one of its two orders. */
  lemma MatchFillsOne(rows: seq<Order>, market: Market, b: nat, a: nat)
    requires Room(rows) && Matched(rows, market, b, a)
    ensures var rows' := AfterMatch(rows, b, a);
            && (rows'[b].status == Filled || rows'[a].status == Filled)
            && Count(rows, market, Buy) >= 1 && Count(rows, market, Sell) >= 1
            && Count(rows', market, Buy) + Count(rows', market, Sell) < Count(rows, market, Buy) + Count(rows, market,
              Sell)
  {
    var f := FillAt(rows, b, a);
    var (x, y, mid) := (FilledRow(rows[b], f), FilledRow(rows[a], f), rows[b := FilledRow(rows[b], f)]);
    assert b != a;
    CountPositive(rows, market, Buy, b);
    CountPositive(rows, market, Sell, a);
    CountUpdate(rows, market, Buy, b, x);
    CountUpdate(mid, market, Buy, a, y);
    CountUpdate(rows, market, Sell, b, x);
    CountUpdate(mid, market, Sell, a, y);
    hide Count, IsBest;
  }

  /** Drain termination: at most bids + asks - 1 matches, none at all when a side is empty. */
  lemma {:induction false} DrainTerminates(rows: seq<Order>, market: Market, picks: seq<(nat, nat)>, rows': seq<Order>)
    requires Room(rows) && Drained(rows, market, picks, rows')
    ensures |picks| + 1 <= Count(rows, market, Buy) + Count(rows, market, Sell) || picks == []
    ensures Count(rows, market, Buy) == 0 || Count(rows, market, Sell) == 0 ==> picks == []
    decreases |picks|
  {
    if picks != [] {
      var (b, a) := picks[0];
      MatchFacts(rows, market, b, a);
      MatchFillsOne(rows, market, b, a);
      DrainTerminates(AfterMatch(rows, b, a), market, picks[1..], rows');
    }
  }

  /** The best pair of a book that is not quiescent crosses. */
  lemma CrossingBest(rows: seq<Order>, market: Market) returns (b: nat, a: nat)
    requires !Quiescent(rows, market)
    ensures Matched(rows, market, b, a)
  {
    var i: nat, j: nat :| i < |rows| && j < |rows| && Resting(rows[i], market, Buy) && Resting(rows[j], market, Sell)
        && rows[i].ticks >= rows[j].ticks;
    b := BestExists(rows, market, Buy, i);
    a := BestExists(rows, market, Sell, j);
    assert !Ahead(rows[i], rows[b]) && !Ahead(rows[j], rows[a]);
  }

  /** A book that is not quiescent still has a match to make, so a drain can always be carried on
      to quiescence. */
  lemma {:induction false} DrainExists(rows: seq<Order>, market: Market)
    returns (picks: seq<(nat, nat)>, rows': seq<Order>)
    requires Room(rows)
    ensures Drained(rows, market, picks, rows') && Quiescent(rows', market)
    decreases Count(rows, market, Buy) + Count(rows, market, Sell)
  {
    if Quiescent(rows, market) {
      return [], rows;
    }
    var b, a := CrossingBest(rows, market);
    MatchFacts(rows, market, b, a);
    MatchFillsOne(rows, market, b, a);
    var rest, end := DrainExists(AfterMatch(rows, b, a), market);
    hide AfterMatch, Count, Room, Quiescent;
    picks, rows' := [(b, a)] + rest, end;
    assert picks[1..] == rest;
  }

  lemma {:induction false} BestExists(rows: seq<Order>, market: Market, side: Side, i: nat) returns (best: nat)
    requires i < |rows| && Resting(rows[i], market, side)
    ensures IsBest(rows, market, side, best)
  {
    best := i;
    var j := 0;
    while j < |rows|
      invariant best < |rows| && Resting(rows[best], market, side)
      invariant 0 <= j <= |rows|
      invariant forall k | 0 <= k < j && Resting(rows[k], market, side) :: !Ahead(rows[k], rows[best])
    {
      if Resting(rows[j], market, side) && Ahead(rows[j], rows[best]) { best := j; }
      j := j + 1;
    }
  }
}

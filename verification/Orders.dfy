/** internal/orders: the rows of active_orders and trade_fills, and what each database transaction
    makes of them. Amounts, ticks and times are the integers that the stored texts spell. */
module Orders {
  import opened Wrappers

  datatype Side = Buy | Sell {
    function Opposite(): Side { if Buy? then Sell else Buy }
  }

  datatype Status = Active | Matching | Filled | Cancelled | Expired

  datatype Market = Market(asset: string, subId: string)

  datatype Order = Order(orderId: string, owner: string, nonce: real, side: Side, market: Market,
                         desired: int, filled: int, limitPrice: string, ticks: int, expiry: int,
                         actionData: string, status: Status, createdAt: int)
  {
    predicate IsExpired(now: int) { expiry <= now }
  }

  datatype Trade = Trade(market: Market, price: string, size: int, aggressor: Side, taker: string, maker: string)

  datatype Db = Db(rows: seq<Order>, trades: seq<Trade>)

  datatype Candidate = Candidate(taker: Order, maker: Order)

  datatype DbError = Duplicate | NotFound | Overfill

  /** The primary key, and the unique index on owner and nonce. The nonce is a numeric column: it is
      compared by value, however it was spelled. */
  predicate UniqueKeys(rows: seq<Order>) {
    forall i, j | 0 <= i < j < |rows| ::
      rows[i].orderId != rows[j].orderId && !(rows[i].owner == rows[j].owner && rows[i].nonce == rows[j].nonce)
  }

  predicate HasId(rows: seq<Order>, id: string) { exists i :: 0 <= i < |rows| && rows[i].orderId == id }

  predicate Clashes(rows: seq<Order>, o: Order) {
    exists i ::
      0 <= i < |rows| && (rows[i].orderId == o.orderId || (rows[i].owner == o.owner && rows[i].nonce == o.nonce))
  }

  // ---------------------------------------------------------------- the book

  /** In the book of side, market and status active. */
  predicate Resting(o: Order, market: Market, side: Side) {
    o.market == market && o.side == side && o.status == Active
  }

  /** a comes before b on their side: better price, or the same price and an earlier creation. */
  predicate Ahead(a: Order, b: Order) {
    || (if a.side.Buy? then a.ticks > b.ticks else a.ticks < b.ticks)
    || (a.ticks == b.ticks && a.createdAt < b.createdAt)
  }

  predicate NoneRests(rows: seq<Order>, market: Market, side: Side) {
    forall i | 0 <= i < |rows| && rows[i].market == market && rows[i].side == side :: rows[i].status != Active
  }

  /** Price, then time: no active order of o's market and side has a higher bid or a lower ask, and
      none at o's own price was created earlier. */
  predicate FirstInLine(rows: seq<Order>, o: Order) {
    forall j | 0 <= j < |rows| && rows[j].market == o.market && rows[j].side == o.side && rows[j].status == Active ::
      && (o.side.Buy? ==> rows[j].ticks <= o.ticks)
      && (o.side.Sell? ==> rows[j].ticks >= o.ticks)
      && (rows[j].ticks == o.ticks ==> o.createdAt <= rows[j].createdAt)
  }

  /** Nobody resting on o's side of its market comes before o. */
  predicate First(rows: seq<Order>, o: Order) {
    forall j | 0 <= j < |rows| && Resting(rows[j], o.market, o.side) :: !Ahead(rows[j], o)
  }

  /** Row i may head "order by price, created_at limit 1"; ties leave the database a choice. */
  predicate IsBest(rows: seq<Order>, market: Market, side: Side, i: nat) {
    && i < |rows| && Resting(rows[i], market, side)
    && forall j | 0 <= j < |rows| && Resting(rows[j], market, side) :: !Ahead(rows[j], rows[i])
  }

  /** The result of selecting the best row: one of the best, or none if nothing rests there. */
  predicate IsHead(rows: seq<Order>, market: Market, side: Side, head: Option<nat>) {
    match head
    case Some(i) => IsBest(rows, market, side, i)
    case None => forall j | 0 <= j < |rows| :: !Resting(rows[j], market, side)
  }

  predicate StringAfter(a: string, b: string) {
    if a == "" then false
    else if b == "" then true
    else if a[0] != b[0] then a[0] > b[0]
    else StringAfter(a[1..], b[1..])
  }

  /** The later order takes; order ids break a tie. */
  function ChooseTakerMaker(left: Order, right: Order): Candidate {
    if left.createdAt > right.createdAt then Candidate(left, right)
    else if right.createdAt > left.createdAt then Candidate(right, left)
    else if StringAfter(left.orderId, right.orderId) then Candidate(left, right)
    else Candidate(right, left)
  }

  // ---------------------------------------------------------------- the transactions

  function CreateTx(db: Db, o: Order): Result<Db, DbError> {
    if Clashes(db.rows, o) then Err(Duplicate) else Ok(db.(rows := db.rows + [o.(status := Active)]))
  }

  function CancelRow(o: Order, owner: string, nonce: real): Order {
    if o.owner == owner && o.nonce == nonce && o.status == Active then o.(status := Cancelled) else o
  }

  function ExpireRow(o: Order, now: int): Order {
    if o.status == Active && o.IsExpired(now) then o.(status := Expired) else o
  }

  function ReserveRow(o: Order, ids: set<string>): Order {
    if o.orderId in ids && o.status == Active then o.(status := Matching) else o
  }

  function ReleaseRow(o: Order, ids: set<string>): Order {
    if o.orderId in ids && o.status == Matching then o.(status := Active) else o
  }

  function CancelRows(rows: seq<Order>, owner: string, nonce: real): (r: seq<Order>)
    ensures |r| == |rows|
  {
    seq(|rows|, i requires 0 <= i < |rows| => CancelRow(rows[i], owner, nonce))
  }

  function ExpireRows(rows: seq<Order>, now: int): (r: seq<Order>)
    ensures |r| == |rows|
  {
    seq(|rows|, i requires 0 <= i < |rows| => ExpireRow(rows[i], now))
  }

  function ReserveRows(rows: seq<Order>, ids: set<string>): (r: seq<Order>)
    ensures |r| == |rows|
  {
    seq(|rows|, i requires 0 <= i < |rows| => ReserveRow(rows[i], ids))
  }

  function ReleaseRows(rows: seq<Order>, ids: set<string>): (r: seq<Order>)
    ensures |r| == |rows|
  {
    seq(|rows|, i requires 0 <= i < |rows| => ReleaseRow(rows[i], ids))
  }

  predicate Cancellable(rows: seq<Order>, owner: string, nonce: real) {
    exists i :: 0 <= i < |rows| && rows[i].owner == owner && rows[i].nonce == nonce && rows[i].status == Active
  }

  function CancelTx(db: Db, owner: string, nonce: real): Result<Db, DbError> {
    if Cancellable(db.rows, owner, nonce) then Ok(db.(rows := CancelRows(db.rows, owner, nonce))) else Err(NotFound)
  }

  predicate InRange(head: Option<nat>, rows: seq<Order>) { head.Some? ==> head.value < |rows| }

  /** Expire, then reserve the two heads if both sides have one. */
  function AcquireTx(rows: seq<Order>, now: int, bid: Option<nat>, ask: Option<nat>): (seq<Order>, Option<Candidate>)
    requires InRange(bid, rows) && InRange(ask, rows)
  {
    var live := ExpireRows(rows, now);
    if bid.None? || ask.None? then (live, None)
    else
      var c := ChooseTakerMaker(live[bid.value], live[ask.value]);
      (ReserveRows(live, {c.taker.orderId, c.maker.orderId}), Some(c))
  }

  predicate Reserved(rows: seq<Order>, id: string, i: int) {
    0 <= i < |rows| && rows[i].orderId == id && rows[i].status == Matching
  }

  predicate ActiveId(rows: seq<Order>, id: string) {
    exists i :: 0 <= i < |rows| && rows[i].orderId == id && rows[i].status == Active
  }

  /** select ... where order_id = id and status = 'matching'. */
  function FindReserved(rows: seq<Order>, id: string): (r: Option<nat>)
    ensures r.Some? ==> Reserved(rows, id, r.value)
    ensures r.None? ==> forall i :: !Reserved(rows, id, i)
  {
    FirstReserved(rows, id, 0)
  }

  function FirstReserved(rows: seq<Order>, id: string, from: nat): (r: Option<nat>)
    requires from <= |rows|
    ensures r.Some? ==> Reserved(rows, id, r.value)
    ensures r.None? ==> forall i | from <= i :: !Reserved(rows, id, i)
    decreases |rows| - from
  {
    if from == |rows| then None
    else if rows[from].orderId == id && rows[from].status == Matching then Some(from)
    else FirstReserved(rows, id, from + 1)
  }

  function FilledRow(o: Order, amount: int): Order {
    o.(filled := o.filled + amount, status := if o.filled + amount == o.desired then Filled else Active)
  }

  function ApplyFill(rows: seq<Order>, id: string, amount: int): Result<(seq<Order>, Order), DbError> {
    match FindReserved(rows, id)
    case None => Err(NotFound)
    case Some(i) =>
      if rows[i].filled + amount > rows[i].desired then Err(Overfill)
      else Ok((rows[i := FilledRow(rows[i], amount)], FilledRow(rows[i], amount)))
  }

  /** Both fills and the trade row, or nothing. */
  function FinalizeTx(db: Db, taker: string, maker: string, price: string, size: int): Result<Db, DbError> {
    var (rows1, takerOrder) :- ApplyFill(db.rows, taker, size);
    var (rows2, makerOrder) :- ApplyFill(rows1, maker, size);
    var paid := if price == "" then makerOrder.limitPrice else price;
    Ok(Db(rows2, db.trades + [Trade(takerOrder.market, paid, size, takerOrder.side, taker, maker)]))
  }

  // ---------------------------------------------------------------- facts about transactions

  lemma IndexIsUnique(rows: seq<Order>, i: nat, j: nat)
    requires UniqueKeys(rows) && i < |rows| && j < |rows| && rows[i].orderId == rows[j].orderId
    ensures i == j
  {
  }

  /** The order ids decide between orders of one instant, so the choice of taker does not depend on
      which side is named first; the taker is never the earlier order. */
  lemma ChoiceIgnoresOrder(left: Order, right: Order)
    requires left.orderId != right.orderId
    ensures ChooseTakerMaker(left, right) == ChooseTakerMaker(right, left)
    ensures var c := ChooseTakerMaker(left, right);
            && (c == Candidate(left, right) || c == Candidate(right, left))
            && c.maker.createdAt <= c.taker.createdAt
            && (c.maker.createdAt == c.taker.createdAt ==> ComesAfter(c.taker.orderId, c.maker.orderId))
  {
    StringAfterIff(left.orderId, right.orderId);
    StringAfterIff(right.orderId, left.orderId);
    hide ComesAfter;
    StringOrderIsTotal(left.orderId, right.orderId);
  }

  /** Dictionary order: a continues b, or has the larger character where they first differ. */
  ghost predicate ComesAfter(a: string, b: string) {
    || (|b| < |a| && a[..|b|] == b)
    || exists i :: 0 <= i < |a| && i < |b| && a[..i] == b[..i] && a[i] > b[i]
  }

  lemma {:induction false} StringAfterIff(a: string, b: string)
    ensures StringAfter(a, b) <==> ComesAfter(a, b)
  {
    if a == "" {
    } else if b == "" {
      assert a[..0] == b;
    } else if a[0] != b[0] {
      if a[0] > b[0] { assert a[..0] == b[..0]; }
    } else {
      StringAfterIff(a[1..], b[1..]);
      TailAfter(a, b);
    }
  }

  lemma TailAfter(a: string, b: string)
    requires a != "" && b != "" && a[0] == b[0]
    ensures ComesAfter(a, b) <==> ComesAfter(a[1..], b[1..])
  {
    if i :| 0 <= i < |a| && i < |b| && a[..i] == b[..i] && a[i] > b[i] {
      assert a[1..][..i - 1] == a[..i][1..] && b[1..][..i - 1] == b[..i][1..];
      assert a[1..][i - 1] > b[1..][i - 1];
    }
    if i :| 0 <= i < |a[1..]| && i < |b[1..]| && a[1..][..i] == b[1..][..i] && a[1..][i] > b[1..][i] {
      assert a[..i + 1] == [a[0]] + a[1..][..i] && b[..i + 1] == [b[0]] + b[1..][..i];
      assert a[i + 1] > b[i + 1];
    }
    assert |b| <= |a| ==> a[..|b|] == [a[0]] + a[1..][..|b| - 1];
    assert b == [b[0]] + b[1..];
  }

  lemma {:induction false} StringOrderIsTotal(a: string, b: string)
    ensures a != b ==> (StringAfter(a, b) <==> !StringAfter(b, a))
    ensures a == b ==> !StringAfter(a, b)
  {
    if a != "" && b != "" {
      StringOrderIsTotal(a[1..], b[1..]);
      assert a == [a[0]] + a[1..] && b == [b[0]] + b[1..];
    }
  }

  /** Create refuses exactly the orders that would break a key, and appends any other as active. */
  lemma CreateIff(db: Db, o: Order)
    requires UniqueKeys(db.rows)
    ensures CreateTx(db, o).Ok? <==> UniqueKeys(db.rows + [o.(status := Active)])
    ensures CreateTx(db, o).Ok?
            <==> forall i | 0 <= i < |db.rows| ::
                   db.rows[i].orderId != o.orderId && (db.rows[i].owner == o.owner ==> db.rows[i].nonce != o.nonce)
    ensures CreateTx(db, o).Ok? ==> CreateTx(db, o).value == Db(db.rows + [o.(status := Active)], db.trades)
  {
    var rows' := db.rows + [o.(status := Active)];
    if Clashes(db.rows, o) {
      var i :| 0 <= i < |db.rows|
          && (db.rows[i].orderId == o.orderId || (db.rows[i].owner == o.owner && db.rows[i].nonce == o.nonce));
      assert rows'[i] == db.rows[i] && rows'[|db.rows|] == o.(status := Active);
    }
  }

  /** Cancelling takes one active order out of the book and touches nothing else; it fails exactly
      when the owner has no active order under the nonce, a reserved one included. */
  lemma CancelIff(db: Db, i: nat)
    requires UniqueKeys(db.rows) && i < |db.rows|
    ensures var o := db.rows[i];
            CancelTx(db, o.owner, o.nonce) ==
              if o.status == Active then Ok(db.(rows := db.rows[i := o.(status := Cancelled)])) else Err(NotFound)
  {
    var o := db.rows[i];
    if o.status == Active {
      assert CancelRows(db.rows, o.owner, o.nonce) == db.rows[i := o.(status := Cancelled)];
    }
  }

  /** A finalise succeeds exactly when both orders are reserved, distinct and have room, and then
      changes those two rows only. */
  lemma FinalizeIff(db: Db, t: nat, m: nat, price: string, size: int)
    requires UniqueKeys(db.rows) && t < |db.rows| && m < |db.rows| && t != m
    ensures var r := FinalizeTx(db, db.rows[t].orderId, db.rows[m].orderId, price, size);
            && (r.Ok? <==> && db.rows[t].status == Matching && db.rows[m].status == Matching
                           && db.rows[t].filled + size <= db.rows[t].desired
                           && db.rows[m].filled + size <= db.rows[m].desired)
            && (r.Ok? ==> r.value == Db(
                  db.rows[t := FilledRow(db.rows[t], size)][m := FilledRow(db.rows[m], size)],
                  db.trades + [Trade(db.rows[t].market, if price == "" then db.rows[m].limitPrice else price, size,
                                     db.rows[t].side, db.rows[t].orderId, db.rows[m].orderId)]))
    ensures FinalizeTx(db, db.rows[t].orderId, db.rows[m].orderId, price, size).Ok? ==>
              var rows' := FinalizeTx(db, db.rows[t].orderId, db.rows[m].orderId, price, size).value.rows;
              |rows'| == |db.rows| && forall i | 0 <= i < |rows'| ::
                var (o, sum) := (db.rows[i], db.rows[i].filled + size);
                rows'[i] == if i == t
                  || i == m then o.(filled := sum, status := if sum == o.desired then Filled else Active)
                            else o
  {
    hide FindReserved;
    var rows := db.rows;
    ReservedIs(rows, t);
    if rows[t].status == Matching && rows[t].filled + size <= rows[t].desired {
      var rows1 := rows[t := FilledRow(rows[t], size)];
      assert UniqueKeys(rows1);
      ReservedIs(rows1, m);
    }
  }

  /** Which error a finalise reports: the taker is looked at first, its reservation before its room. */
  lemma FinalizeErrors(db: Db, t: nat, m: nat, price: string, size: int)
    requires UniqueKeys(db.rows) && t < |db.rows| && m < |db.rows| && t != m
    ensures var r := FinalizeTx(db, db.rows[t].orderId, db.rows[m].orderId, price, size);
            var (x, y) := (db.rows[t], db.rows[m]);
            && (r == Err(Overfill) <==> && x.status == Matching
                                        && (|| x.filled + size > x.desired
                                            || (y.status == Matching && y.filled + size > y.desired)))
            && (r == Err(NotFound) <==> || x.status != Matching
                                        || (x.filled + size <= x.desired && y.status != Matching))
  {
    hide FindReserved;
    var rows := db.rows;
    ReservedIs(rows, t);
    if rows[t].status == Matching && rows[t].filled + size <= rows[t].desired {
      var rows1 := rows[t := FilledRow(rows[t], size)];
      assert UniqueKeys(rows1);
      ReservedIs(rows1, m);
    }
  }

  lemma ReservedIs(rows: seq<Order>, i: nat)
    requires UniqueKeys(rows) && i < |rows|
    ensures FindReserved(rows, rows[i].orderId) == if rows[i].status == Matching then Some(i) else None
  {
    hide FindReserved;
    var r := FindReserved(rows, rows[i].orderId);
    if r.Some? { IndexIsUnique(rows, r.value, i); }
    if rows[i].status == Matching { assert Reserved(rows, rows[i].orderId, i); }
  }

  /** Whoever is named, a successful finalise named two distinct reserved rows. */
  lemma FinalizeRows(db: Db, taker: string, maker: string, price: string, size: int) returns (t: nat, m: nat)
    requires UniqueKeys(db.rows) && FinalizeTx(db, taker, maker, price, size).Ok?
    ensures t < |db.rows| && m < |db.rows| && t != m
    ensures db.rows[t].orderId == taker && db.rows[m].orderId == maker
    ensures db.rows[t].status == Matching && db.rows[m].status == Matching
  {
    hide FindReserved;
    t := FindReserved(db.rows, taker).value;
    var rows1 := db.rows[t := FilledRow(db.rows[t], size)];
    m := FindReserved(rows1, maker).value;
    assert Reserved(rows1, maker, m);
  }

  lemma ReservedStayFirst(rows: seq<Order>, o: Order, ids: set<string>)
    requires First(rows, o)
    ensures First(ReserveRows(rows, ids), o)
  {
    var rows' := ReserveRows(rows, ids);
    forall j | 0 <= j < |rows'| && Resting(rows'[j], o.market, o.side) ensures !Ahead(rows'[j], o) {
      assert rows'[j] == rows[j];
    }
  }

  /** The comparison the selection makes is price, then time. */
  lemma FirstIsFirstInLine(rows: seq<Order>, o: Order)
    ensures First(rows, o) <==> FirstInLine(rows, o)
  {
    forall j | 0 <= j < |rows| && rows[j].market == o.market && rows[j].side == o.side && rows[j].status == Active
        && First(rows, o)
      ensures (o.side.Buy? ==> rows[j].ticks <= o.ticks) && (o.side.Sell? ==> rows[j].ticks >= o.ticks)
              && (rows[j].ticks == o.ticks ==> o.createdAt <= rows[j].createdAt)
    {
      assert Resting(rows[j], o.market, o.side) && !Ahead(rows[j], o);
    }
    forall j | 0 <= j < |rows| && Resting(rows[j], o.market, o.side)
        && FirstInLine(rows, o) ensures !Ahead(rows[j], o) {
      assert rows[j].market == o.market && rows[j].side == o.side && rows[j].status == Active;
    }
  }

  lemma StaysInLine(rows: seq<Order>, o: Order, ids: set<string>)
    requires First(rows, o)
    ensures FirstInLine(ReserveRows(rows, ids), o)
  {
    ReservedStayFirst(rows, o, ids);
    FirstIsFirstInLine(ReserveRows(rows, ids), o);
  }
}

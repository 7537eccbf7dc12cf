/** internal/orders/repository.go: the order table and the trade log, updated in place. Each method
    is one database transaction; the SQL selections and updates are loops over the rows. */
module Store {
  import opened Orders
  import opened Wrappers

  class Repository {
    var rows: seq<Order>
    var trades: seq<Trade>

    function Contents(): Db
      reads this
    {
      Db(rows, trades)
    }

    /** The primary key and the unique owner-nonce index hold. */
    predicate Valid()
      reads this
    {
      UniqueKeys(rows)
    }

    constructor ()
      ensures Valid() && Contents() == Db([], [])
    {
      rows, trades := [], [];
    }

    method Create(o: Order) returns (r: Result<Order, DbError>)
      requires Valid()
      modifies this`rows
      ensures Valid()
      ensures match CreateTx(old(Contents()), o)
              case Ok(db) => Contents() == db && r == Ok(o.(status := Active))
              case Err(e) => Contents() == old(Contents()) && r == Err(e)
    {
      for i := 0 to |rows|
        invariant rows == old(rows)
        invariant forall j | 0 <= j < i ::
                  rows[j].orderId != o.orderId && !(rows[j].owner == o.owner && rows[j].nonce == o.nonce)
      {
        if rows[i].orderId == o.orderId || (rows[i].owner == o.owner && rows[i].nonce == o.nonce) {
          return Err(Duplicate);
        }
      }
      rows := rows + [o.(status := Active)];
      return Ok(o.(status := Active));
    }

    method CancelByOwnerNonce(owner: string, nonce: real) returns (r: Result<Order, DbError>)
      requires Valid()
      modifies this`rows
      ensures Valid()
      ensures match CancelTx(old(Contents()), owner, nonce)
              case Ok(db) => Contents() == db && r.Ok? && r.value in rows
                             && r.value.owner == owner && r.value.nonce == nonce && r.value.status == Cancelled
              case Err(e) => Contents() == old(Contents()) && r == Err(e)
    {
      ghost var was := rows;
      r := Err(NotFound);
      for i := 0 to |rows|
        invariant |rows| == |was|
        invariant forall j | 0 <= j < i :: rows[j] == CancelRow(was[j], owner, nonce)
        invariant forall j | i <= j < |was| :: rows[j] == was[j]
        invariant r.Err? ==> r == Err(NotFound) && rows == was && forall j | 0 <= j < i ::
                  CancelRow(was[j], owner, nonce) == was[j]
        invariant r.Ok? ==> Cancellable(was, owner, nonce)
        invariant r.Ok? ==> exists j | 0 <= j < i :: rows[j] == r.value
        invariant r.Ok? ==> r.value.owner == owner && r.value.nonce == nonce && r.value.status == Cancelled
      {
        if rows[i].owner == owner && rows[i].nonce == nonce && rows[i].status == Active {
          rows := rows[i := rows[i].(status := Cancelled)];
          r := Ok(rows[i]);
        }
      }
      assert r.Ok? ==> rows == CancelRows(was, owner, nonce);
    }

    method ExpireOrders(now: int)
      requires Valid()
      modifies this`rows
      ensures Valid() && rows == ExpireRows(old(rows), now)
      ensures |rows| == |old(rows)|
      ensures forall i | 0 <= i < |rows| ::
                && rows[i] == old(rows)[i].(status := rows[i].status)
                && rows[i].status == if old(rows)[i].status == Active && old(rows)[i].expiry <= now then Expired
                                     else old(rows)[i].status
    {
      ghost var was := rows;
      for i := 0 to |rows|
        invariant |rows| == |was|
        invariant forall j | 0 <= j < i :: rows[j] == ExpireRow(was[j], now)
        invariant forall j | i <= j < |was| :: rows[j] == was[j]
      {
        if rows[i].status == Active && rows[i].expiry <= now {
          rows := rows[i := rows[i].(status := Expired)];
        }
      }
      assert rows == ExpireRows(was, now);
    }

    /** select ... order by price, created_at limit 1: a row of the market and side, of the best
        price there, and of the earliest creation at that price; none exactly if there is none. */
    method LockBestBySide(market: Market, side: Side) returns (best: Option<nat>)
      ensures IsHead(rows, market, side, best)
      ensures best.Some? ==>
                best.value < |rows| && FirstInLine(rows, rows[best.value]) && rows[best.value].status == Active
                && rows[best.value].market == market && rows[best.value].side == side
      ensures best.None? <==> NoneRests(rows, market, side)
    {
      best := None;
      for i := 0 to |rows|
        invariant best.Some? ==>
                    && best.value < i && Resting(rows[best.value], market, side)
                    && forall j | 0 <= j < i && Resting(rows[j], market, side) :: !Ahead(rows[j], rows[best.value])
        invariant best.None? ==> forall j | 0 <= j < i :: !Resting(rows[j], market, side)
      {
        if rows[i].market == market && rows[i].side == side && rows[i].status == Active {
          if best.None? || Ahead(rows[i], rows[best.value]) {
            best := Some(i);
          }
        }
      }
    }

    /** update ... set status = 'matching' where order_id = any(ids) and status = 'active'; the
        count of rows affected must be two. */
    method ReserveOrders(taker: string, maker: string) returns (ok: bool)
      requires Valid()
      modifies this`rows
      ensures Valid() && rows == ReserveRows(old(rows), {taker, maker})
      ensures |rows| == |old(rows)|
      ensures forall i | 0 <= i < |rows| ::
                && rows[i] == old(rows)[i].(status := rows[i].status)
                && rows[i].status == if old(rows)[i].status == Active
                  && old(rows)[i].orderId in {taker, maker} then Matching
                                     else old(rows)[i].status
      ensures ok <==> taker != maker && ActiveId(old(rows), taker) && ActiveId(old(rows), maker)
    {
      hide Hits, ActiveId, UniqueKeys;
      ghost var was := rows;
      var affected := 0;
      HitsNone(was, taker);
      HitsNone(was, maker);
      for i := 0 to |rows|
        invariant |rows| == |was|
        invariant forall j | 0 <= j < i :: rows[j] == ReserveRow(was[j], {taker, maker})
        invariant forall j | i <= j < |was| :: rows[j] == was[j]
        invariant affected == if taker == maker then Hits(was[..i], taker) else Hits(was[..i], taker) + Hits(was[..i],
                  maker)
      {
        HitsNext(was, i, taker);
        HitsNext(was, i, maker);
        if (rows[i].orderId == taker || rows[i].orderId == maker) && rows[i].status == Active {
          rows := rows[i := rows[i].(status := Matching)];
          affected := affected + 1;
        }
      }
      assert was[..|was|] == was;
      HitsOnce(was, taker);
      HitsOnce(was, maker);
      assert rows == ReserveRows(was, {taker, maker});
      ReserveKeepsKeys(was, {taker, maker});
      return affected == 2;
    }

    /** Expiry, the two selections and the reservation in one transaction. A pair is handed out
        exactly when both sides have a resting order; it is then a live bid and ask of the market,
        reserved, and no resting order has a better price, or the same price and an earlier
        creation, than either. The reservation never falls short, so there is no error to report. */
    method AcquireMatchCandidate(market: Market, now: int)
      returns (c: Option<Candidate>, ghost bid: Option<nat>, ghost ask: Option<nat>)
      requires Valid()
      modifies this`rows
      ensures Valid()
      ensures IsHead(ExpireRows(old(rows), now), market, Buy, bid)
      ensures IsHead(ExpireRows(old(rows), now), market, Sell, ask)
      ensures (rows, c) == AcquireTx(old(rows), now, bid, ask)
      ensures c.Some? ==>
                && c.value.taker.side == c.value.maker.side.Opposite()
                && c.value.taker.market == c.value.maker.market == market
                && now < c.value.taker.expiry && now < c.value.maker.expiry
                && c.value.maker.createdAt <= c.value.taker.createdAt
                && FirstInLine(rows, c.value.taker) && FirstInLine(rows, c.value.maker)
      ensures c.None?
              <==> || NoneRests(ExpireRows(old(rows), now), market, Buy)
                   || NoneRests(ExpireRows(old(rows), now), market, Sell)
    {
      ExpireOrders(now);
      ghost var live := rows;
      var b := LockBestBySide(market, Buy);
      var a := LockBestBySide(market, Sell);
      bid, ask := b, a;
      if b.None? || a.None? {
        return None, bid, ask;
      }
      var pair := ChooseTakerMaker(rows[b.value], rows[a.value]);
      var ok := ReserveOrders(pair.taker.orderId, pair.maker.orderId);
      assert ok;
      StaysInLine(live, pair.taker, {pair.taker.orderId, pair.maker.orderId});
      StaysInLine(live, pair.maker, {pair.taker.orderId, pair.maker.orderId});
      return Some(pair), bid, ask;
    }

    method ReleaseMatch(taker: string, maker: string)
      requires Valid()
      modifies this`rows
      ensures Valid() && rows == ReleaseRows(old(rows), {taker, maker})
      ensures |rows| == |old(rows)|
      ensures forall i | 0 <= i < |rows| ::
                && rows[i] == old(rows)[i].(status := rows[i].status)
                && rows[i].status == if old(rows)[i].status == Matching
                  && old(rows)[i].orderId in {taker, maker} then Active
                                     else old(rows)[i].status
    {
      ghost var was := rows;
      for i := 0 to |rows|
        invariant |rows| == |was|
        invariant forall j | 0 <= j < i :: rows[j] == ReleaseRow(was[j], {taker, maker})
        invariant forall j | i <= j < |was| :: rows[j] == was[j]
      {
        if (rows[i].orderId == taker || rows[i].orderId == maker) && rows[i].status == Matching {
          rows := rows[i := rows[i].(status := Active)];
        }
      }
      assert rows == ReleaseRows(was, {taker, maker});
    }

    method ApplyFill(id: string, amount: int) returns (r: Result<Order, DbError>)
      modifies this`rows
      ensures match Orders.ApplyFill(old(rows), id, amount)
              case Ok((rows', o)) => rows == rows' && r == Ok(o)
              case Err(e) => rows == old(rows) && r == Err(e)
    {
      var i := 0;
      while i < |rows| && !(rows[i].orderId == id && rows[i].status == Matching)
        invariant 0 <= i <= |rows| && rows == old(rows)
        invariant forall j | 0 <= j < i :: !Reserved(rows, id, j)
      {
        i := i + 1;
      }
      FirstIs(rows, id, i);
      if i == |rows| {
        return Err(NotFound);
      }
      var filled := rows[i].filled + amount;
      if filled > rows[i].desired {
        return Err(Overfill);
      }
      rows := rows[i := rows[i].(filled := filled, status := if filled == rows[i].desired then Filled else Active)];
      return Ok(rows[i]);
    }

    /** Both fills and the trade row are stored, or the table and the log are as before. */
    method FinalizeMatchWithPrice(taker: string, maker: string, price: string, size: int)
      returns (r: Result<(), DbError>)
      requires Valid()
      modifies this
      ensures Valid()
      ensures match FinalizeTx(old(Contents()), taker, maker, price, size)
              case Ok(db) => Contents() == db && r == Ok(())
              case Err(e) => Contents() == old(Contents()) && r == Err(e)
    {
      var before := rows;
      var takerOrder := ApplyFill(taker, size);
      if takerOrder.Err? {
        return Err(takerOrder.error);
      }
      var makerOrder := ApplyFill(maker, size);
      if makerOrder.Err? {
        rows := before;
        return Err(makerOrder.error);
      }
      var paid := price;
      if price == "" {
        paid := makerOrder.value.limitPrice;
      }
      trades := trades + [Trade(takerOrder.value.market, paid, size, takerOrder.value.side, taker, maker)];
      r := Ok(());
      FinalizeKeepsKeys(old(Contents()), taker, maker, price, size);
    }
  }

  lemma ReserveKeepsKeys(rows: seq<Order>, ids: set<string>)
    requires UniqueKeys(rows)
    ensures UniqueKeys(ReserveRows(rows, ids))
  {
  }

  /** How many active rows have the id. */
  function Hits(rows: seq<Order>, id: string): nat {
    if rows == [] then 0
    else
      var last := rows[|rows| - 1];
      Hits(rows[..|rows| - 1], id) + if last.orderId == id && last.status == Active then 1 else 0
  }

  lemma HitsNone(rows: seq<Order>, id: string)
    ensures Hits(rows[..0], id) == 0
  {
  }

  lemma HitsNext(rows: seq<Order>, i: nat, id: string)
    requires i < |rows|
    ensures Hits(rows[..i + 1], id) == Hits(rows[..i], id) + if rows[i].orderId == id
            && rows[i].status == Active then 1 else 0
  {
    assert rows[..i + 1][..i] == rows[..i];
  }

  /** An id names at most one active row. */
  lemma {:induction false} HitsOnce(rows: seq<Order>, id: string)
    requires UniqueKeys(rows)
    ensures Hits(rows, id) == if ActiveId(rows, id) then 1 else 0
  {
    if rows != [] {
      var n := |rows| - 1;
      HitsOnce(rows[..n], id);
      if i :| 0 <= i < n && rows[i].orderId == id && rows[i].status == Active {
        assert rows[..n][i] == rows[i];
      }
    }
  }

  lemma FirstIs(rows: seq<Order>, id: string, i: nat)
    requires i <= |rows| && (forall j | 0 <= j < i :: !Reserved(rows, id, j)) && (i < |rows| ==> Reserved(rows, id, i))
    ensures FindReserved(rows, id) == if i < |rows| then Some(i) else None
  {
    FirstFrom(rows, id, 0, i);
  }

  lemma {:induction false} FirstFrom(rows: seq<Order>, id: string, from: nat, i: nat)
    requires from <= i <= |rows| && (forall j | from <= j < i :: !Reserved(rows, id, j))
             && (i < |rows| ==> Reserved(rows, id, i))
    ensures FirstReserved(rows, id, from) == if i < |rows| then Some(i) else None
    decreases |rows| - from
  {
    if from < i {
      assert !Reserved(rows, id, from);
      FirstFrom(rows, id, from + 1, i);
    }
  }

  lemma FinalizeKeepsKeys(db: Db, taker: string, maker: string, price: string, size: int)
    requires UniqueKeys(db.rows) && FinalizeTx(db, taker, maker, price, size).Ok?
    ensures UniqueKeys(FinalizeTx(db, taker, maker, price, size).value.rows)
  {
    hide FinalizeTx;
    var t, m := FinalizeRows(db, taker, maker, price, size);
    FinalizeIff(db, t, m, price, size);
  }
}

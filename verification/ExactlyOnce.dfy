/** Lost replies and failed recordings: with one matcher, orders created unfilled at distinct times,
    and calm around every reserved or unrecorded pair, the trade rows and the matches on chain
    stay in step, because a resubmitted match is refused and the refusal records it. */
module ExactlyOnce {
  import opened Arith
  import opened MatchRules
  import opened Orders
  import opened Protocol
  import opened Runs
  import opened Solo
  import opened Ticks
  import opened Wrappers

  // ---------------------------------------------------------------- calm

  ghost predicate NamedBy(es: seq<Execution>, id: string) { exists i :: 0 <= i < |es| && es[i].Names(id) }

  /** Reserved by the matcher, or executed but not recorded. */
  ghost predicate Guarded(s: State, id: string) {
    || NamedBy(s.unrecorded, id)
    || (s.matchers != [] && s.matchers[0].Busy? && id in Ids(s.matchers[0].pair))
  }

  ghost predicate SameBook(a: Order, b: Order) { a.market == b.market && a.side == b.side }

  /** New orders are unfilled, of a time of their own, and do not come before a guarded order; no
      order of an unrecorded match is cancelled or expires. */
  ghost predicate Calm(s: State, step: Step) {
    var rows := s.db.rows;
    match step
    case Create(o) =>
      o.filled == 0 && forall i | 0 <= i < |rows| ::
        rows[i].createdAt != o.createdAt && (Guarded(s, rows[i].orderId) && SameBook(rows[i], o) ==> !Ahead(o, rows[i]))
    case Cancel(owner, nonce) =>
      forall i | 0 <= i < |rows| && NamedBy(s.unrecorded, rows[i].orderId) ::
          CancelRow(rows[i], owner, nonce) == rows[i]
    case Expire(now) => NoneExpires(s, now)
    case Acquire(_, _, now, _, _) => NoneExpires(s, now)
    case _ => true
  }

  ghost predicate NoneExpires(s: State, now: int) {
    forall i | 0 <= i < |s.db.rows| && NamedBy(s.unrecorded, s.db.rows[i].orderId) ::
      ExpireRow(s.db.rows[i], now) == s.db.rows[i]
  }

  /** Calm, read off the columns: a new order is unfilled, of a time of its own, and takes its place
      behind every order of its market and side that is reserved or waits for its match to be
      recorded; an order that waits so is not cancelled, and not due to expire. */
  lemma CalmMeans(s: State, step: Step)
    requires |s.matchers| == 1
    ensures step.Create? ==>
              (Calm(s, step) <==>
                && step.o.filled == 0
                && (forall i | 0 <= i < |s.db.rows| :: s.db.rows[i].createdAt != step.o.createdAt)
                && (forall i | 0 <= i < |s.db.rows| && Guarded(s, s.db.rows[i].orderId) ::
                      var (o, row) := (step.o, s.db.rows[i]);
                      row.market == o.market && row.side == o.side ==>
                        || (o.ticks == row.ticks && o.createdAt > row.createdAt)
                        || (if o.side == Buy then o.ticks < row.ticks else o.ticks > row.ticks)))
    ensures step.Cancel? ==>
              (Calm(s, step) <==>
                forall i | 0 <= i < |s.db.rows| && NamedBy(s.unrecorded, s.db.rows[i].orderId) ::
                  var row := s.db.rows[i];
                  row.owner == step.owner && row.nonce == step.nonce ==> row.status != Active)
    ensures step.Expire? || step.Acquire? ==>
              (Calm(s, step) <==>
                forall i | 0 <= i < |s.db.rows| && NamedBy(s.unrecorded, s.db.rows[i].orderId) ::
                  s.db.rows[i].status == Active ==> step.now < s.db.rows[i].expiry)
    ensures step.Check? || step.Send? || step.Record? || step.RecordUnheard? || step.Fail? || step.LetGo? || step.Crash?
            ==> Calm(s, step)
  {
    hide Guarded, NamedBy;
  }

  ghost predicate CalmRun(s: State, steps: seq<Step>, s': State)
    decreases |steps|
  {
    if steps == [] then s' == s
    else Enabled(s, steps[0]) && Calm(s, steps[0]) && CalmRun(Apply(s, steps[0]), steps[1..], s')
  }

  lemma CalmNone(s: State)
    ensures CalmRun(s, [], s)
  {
  }

  lemma {:induction false} CalmConcat(s: State, first: seq<Step>, mid: State, second: seq<Step>, s': State)
    requires CalmRun(s, first, mid) && CalmRun(mid, second, s')
    ensures CalmRun(s, first + second, s')
    decreases |first|
  {
    hide Apply, Enabled, Calm;
    if first == [] {
      assert first + second == second;
    } else {
      CalmConcat(Apply(s, first[0]), first[1..], mid, second, s');
      assert (first + second)[1..] == first[1..] + second;
    }
  }

  lemma CalmOne(s: State, step: Step)
    requires Enabled(s, step) && Calm(s, step)
    ensures CalmRun(s, [step], Apply(s, step))
  {
    hide Apply, Enabled, Calm;
    assert [step][1..] == [];
    CalmNone(Apply(s, step));
  }

  /** Within a tick the matcher disturbs nobody's calm. */
  lemma {:induction false} CalmInside(s: State, steps: seq<Step>, s': State)
    requires Run(s, steps, s')
    requires forall i | 0 <= i < |steps| ::
             !steps[i].Create? && !steps[i].Cancel? && !steps[i].Expire? && !steps[i].Acquire?
    ensures CalmRun(s, steps, s')
    decreases |steps|
  {
    hide Apply, Enabled;
    if steps != [] {
      assert Calm(s, steps[0]);
      CalmInside(Apply(s, steps[0]), steps[1..], s');
    }
  }

  // ---------------------------------------------------------------- heads of the book

  /** Every other order resting on o's side of its market comes after o. */
  ghost predicate Top(rows: seq<Order>, o: Order) {
    forall j | 0 <= j < |rows| && Resting(rows[j], o.market, o.side) && rows[j].orderId != o.orderId ::
        Ahead(o, rows[j])
  }

  ghost predicate SamePlace(a: Order, b: Order) {
    a.orderId == b.orderId && SameBook(a, b) && a.ticks == b.ticks && a.createdAt == b.createdAt
  }

  /** Whatever rests on o's side was resting there before, or comes after o. */
  ghost predicate NoNewRivals(rows: seq<Order>, rows': seq<Order>, o: Order) {
    forall j | 0 <= j < |rows'| && Resting(rows'[j], o.market, o.side) && rows'[j].orderId != o.orderId ::
      Ahead(o, rows'[j]) || (j < |rows| && SamePlace(rows[j], rows'[j]) && rows[j].status == Active)
  }

  lemma TopKept(rows: seq<Order>, rows': seq<Order>, o: Order)
    requires Top(rows, o) && NoNewRivals(rows, rows', o)
    ensures Top(rows', o)
  {
    forall j | 0 <= j < |rows'| && Resting(rows'[j], o.market, o.side) && rows'[j].orderId != o.orderId
      ensures Ahead(o, rows'[j])
    {
    }
  }

  // ---------------------------------------------------------------- unrecorded matches

  function Snapshot(t: Order, m: Order): Candidate { Candidate(t.(status := Active), m.(status := Active)) }

  /** The matcher decided to submit this pair with these units and this fill. */
  ghost predicate Decided(c: Candidate, units: int, fill: int) {
    exists now :: Decide(c, now).Submit? && Decide(c, now).units.amount == units && Decide(c, now).fill == fill
  }

  ghost predicate PendingAt(rows: seq<Order>, e: Execution, t: nat, m: nat) {
    && t < |rows| && m < |rows|
    && rows[t].orderId == e.taker && rows[m].orderId == e.maker
    && rows[t].side != rows[m].side && rows[t].market == rows[m].market
    && rows[t].createdAt > rows[m].createdAt
    && Decided(Snapshot(rows[t], rows[m]), e.units, e.fill)
    && (|| (rows[t].status == Matching && rows[m].status == Matching)
        || (rows[t].status == Active && rows[m].status == Active && Top(rows, rows[t]) && Top(rows, rows[m])))
  }

  ghost predicate Pending(rows: seq<Order>, e: Execution) { exists t: nat, m: nat :: PendingAt(rows, e, t, m) }

  ghost predicate Apart(e: Execution, f: Execution) { !e.Names(f.taker) && !e.Names(f.maker) }

  ghost predicate Pendings(rows: seq<Order>, es: seq<Execution>) {
    && (forall i | 0 <= i < |es| :: Pending(rows, es[i]))
    && (forall i, j | 0 <= i < j < |es| :: Apart(es[i], es[j]))
  }

  /** A pending match survives a change that spares its two rows and brings them no rival. */
  lemma PendingKept(rows: seq<Order>, rows': seq<Order>, e: Execution, t: nat, m: nat)
    requires PendingAt(rows, e, t, m) && |rows| <= |rows'| && rows'[t] == rows[t] && rows'[m] == rows[m]
    requires rows[t].status == Active ==> NoNewRivals(rows, rows', rows[t]) && NoNewRivals(rows, rows', rows[m])
    ensures Pending(rows', e)
  {
    hide Decided, Top, NoNewRivals;
    if rows[t].status == Active {
      TopKept(rows, rows', rows[t]);
      TopKept(rows, rows', rows[m]);
    }
    assert PendingAt(rows', e, t, m);
  }

  // ---------------------------------------------------------------- the matcher's own pair

  /** e is this pair's own match, or a stranger that cannot become the pair of this market while
      the matcher is busy with it. */
  ghost predicate Clear(rows: seq<Order>, c: Candidate, e: Execution) {
    || (e.taker == c.taker.orderId && e.maker == c.maker.orderId)
    || (&& !e.Names(c.taker.orderId) && !e.Names(c.maker.orderId)
        && forall i | 0 <= i < |rows| && e.Names(rows[i].orderId) && rows[i].market == c.taker.market ::
          rows[i].status == Matching)
  }

  ghost predicate NotReserved(rows: seq<Order>, id: string) {
    forall i | 0 <= i < |rows| && rows[i].orderId == id :: rows[i].status != Matching
  }

  ghost predicate StageOnce(rows: seq<Order>, c: Candidate, stage: Stage, unrecorded: seq<Execution>) {
    && (|| (HeldPair(rows, c) && Top(rows, c.taker) && Top(rows, c.maker))
        || (stage.Releasing? && NotReserved(rows, c.taker.orderId) && NotReserved(rows, c.maker.orderId)))
    && (stage.Submitting? ==> Decided(c, stage.units, stage.fill))
    && (stage.Recording? ==> Decided(c, stage.units, stage.fill) && MatchOf(c, stage.units, stage.fill) in unrecorded)
  }

  ghost predicate PairOnce(c: Candidate) {
    c.taker.status == Active && c.maker.status == Active && c.taker.createdAt > c.maker.createdAt
  }

  ghost predicate PhaseOnce(p: Phase, rows: seq<Order>, unrecorded: seq<Execution>) {
    p.Busy? ==>
      && PairOnce(p.pair)
      && StageOnce(rows, p.pair, p.stage, unrecorded)
      && forall i | 0 <= i < |unrecorded| :: Clear(rows, p.pair, unrecorded[i])
  }

  // ---------------------------------------------------------------- the accounts

  ghost predicate Accounts(executions: seq<Execution>, settled: seq<Execution>, unrecorded: seq<Execution>) {
    && multiset(executions) == multiset(settled) + multiset(unrecorded)
    && forall id :: Used(executions, id) == Used(settled, id) + Used(unrecorded, id)
  }

  /** Rows have distinct creation times, and none was created with a fill. */
  ghost predicate Creation(rows: seq<Order>, born: map<string, Order>) {
    && (forall i, j | 0 <= i < j < |rows| :: rows[i].createdAt != rows[j].createdAt)
    && forall id | id in born :: born[id].filled == 0
  }

  ghost predicate Once(s: State) {
    && |s.matchers| == 1 && Reservations(s)
    && Creation(s.db.rows, s.born) && Accounts(s.executions, s.settled, s.unrecorded)
    && Pendings(s.db.rows, s.unrecorded)
    && PhaseOnce(s.matchers[0], s.db.rows, s.unrecorded)
  }

  /** Once is its parts. */
  lemma OnceParts(s: State)
    requires Once(s)
    ensures |s.matchers| == 1 && Reservations(s) && Creation(s.db.rows, s.born)
            && Accounts(s.executions, s.settled, s.unrecorded)
    ensures Pendings(s.db.rows, s.unrecorded) && PhaseOnce(s.matchers[0], s.db.rows, s.unrecorded)
  {
    hide Accounts, Creation, Pendings, PhaseOnce, Reservations;
  }

  lemma OnceWhole(s: State)
    requires |s.matchers| == 1 && Reservations(s) && Creation(s.db.rows, s.born)
             && Accounts(s.executions, s.settled, s.unrecorded)
    requires Pendings(s.db.rows, s.unrecorded) && PhaseOnce(s.matchers[0], s.db.rows, s.unrecorded)
    ensures Once(s)
  {
    hide Accounts, Creation, Pendings, PhaseOnce, Reservations;
  }

  // ---------------------------------------------------------------- API steps

  /** Rows only leave the book, and reserved rows stay as they are. */
  ghost predicate Thins(rows: seq<Order>, rows': seq<Order>) {
    && |rows'| == |rows|
    && forall i | 0 <= i < |rows| ::
         && rows'[i] == rows[i].(status := rows'[i].status)
         && (rows'[i].status == Active ==> rows[i].status == Active)
         && (rows[i].status == Matching <==> rows'[i].status == Matching)
  }

  lemma ThinsTop(rows: seq<Order>, rows': seq<Order>, o: Order)
    requires Thins(rows, rows')
    ensures NoNewRivals(rows, rows', o)
  {
  }

  lemma ThinsPhase(rows: seq<Order>, rows': seq<Order>, p: Phase, unrecorded: seq<Execution>)
    requires PhaseOnce(p, rows, unrecorded) && Thins(rows, rows')
    ensures PhaseOnce(p, rows', unrecorded)
  {
    if p.Busy? {
      var c := p.pair;
      hide Decided, Ahead;
      ThinsTop(rows, rows', c.taker);
      ThinsTop(rows, rows', c.maker);
      if HeldPair(rows, c) && Top(rows, c.taker) && Top(rows, c.maker) {
        TopKept(rows, rows', c.taker);
        TopKept(rows, rows', c.maker);
        ThinsHeld(rows, rows', c.taker);
        ThinsHeld(rows, rows', c.maker);
      }
      forall i | 0 <= i < |unrecorded| ensures Clear(rows', c, unrecorded[i]) {
        assert Clear(rows, c, unrecorded[i]);
      }
    }
  }

  lemma ThinsHeld(rows: seq<Order>, rows': seq<Order>, o: Order)
    requires HeldRow(rows, o) && Thins(rows, rows')
    ensures HeldRow(rows', o)
  {
    var i :| 0 <= i < |rows| && rows[i] == o.(status := Matching);
    assert rows'[i] == o.(status := Matching);
  }

  lemma ThinsPendings(rows: seq<Order>, rows': seq<Order>, es: seq<Execution>)
    requires Pendings(rows, es) && Thins(rows, rows')
    requires forall i | 0 <= i < |rows| && NamedBy(es, rows[i].orderId) :: rows'[i] == rows[i]
    ensures Pendings(rows', es)
  {
    forall i | 0 <= i < |es| ensures Pending(rows', es[i]) {
      assert Pending(rows, es[i]);
      hide Decided, Top, Thins, NoNewRivals;
      var t: nat, m: nat :| PendingAt(rows, es[i], t, m);
      assert NamedBy(es, rows[t].orderId) && NamedBy(es, rows[m].orderId);
      ThinsTop(rows, rows', rows[t]);
      ThinsTop(rows, rows', rows[m]);
      PendingKept(rows, rows', es[i], t, m);
    }
  }

  lemma ThinsCreation(rows: seq<Order>, rows': seq<Order>, born: map<string, Order>)
    requires Creation(rows, born) && Thins(rows, rows')
    ensures Creation(rows', born)
  {
  }

  lemma ThinStep(s: State, s': State)
    requires Once(s) && Reservations(s') && Thins(s.db.rows, s'.db.rows)
    requires s' == s.(db := s'.db)
    requires forall i | 0 <= i < |s.db.rows| && NamedBy(s.unrecorded, s.db.rows[i].orderId) ::
             s'.db.rows[i] == s.db.rows[i]
    ensures Once(s')
  {
    ThinsCreation(s.db.rows, s'.db.rows, s.born);
    hide Pendings, PhaseOnce, Reservations, Creation, Accounts, Thins;
    ThinsPendings(s.db.rows, s'.db.rows, s.unrecorded);
    ThinsPhase(s.db.rows, s'.db.rows, s.matchers[0], s.unrecorded);
  }

  lemma StrangerUnnamed(rows: seq<Order>, es: seq<Execution>, id: string)
    requires Pendings(rows, es) && !HasId(rows, id)
    ensures !NamedBy(es, id)
  {
    hide Top, Decided, Apart;
    forall i | 0 <= i < |es| ensures !es[i].Names(id) {
      assert Pending(rows, es[i]);
      var t: nat, m: nat :| PendingAt(rows, es[i], t, m);
      assert rows[t].orderId != id && rows[m].orderId != id;
    }
  }

  lemma NewcomerTop(rows: seq<Order>, o: Order, r: Order)
    requires SameBook(r, o) ==> !Ahead(o, r) && r.createdAt != o.createdAt
    ensures NoNewRivals(rows, rows + [o], r)
  {
  }

  lemma CreatePendings(rows: seq<Order>, es: seq<Execution>, o: Order)
    requires Pendings(rows, es)
    requires forall i | 0 <= i < |rows| ::
             rows[i].createdAt != o.createdAt
               && (NamedBy(es, rows[i].orderId) && SameBook(rows[i], o) ==> !Ahead(o, rows[i]))
    ensures Pendings(rows + [o], es)
  {
    forall i | 0 <= i < |es| ensures Pending(rows + [o], es[i]) {
      assert Pending(rows, es[i]);
      hide Decided, Top, NoNewRivals, Ahead, Apart;
      var t: nat, m: nat :| PendingAt(rows, es[i], t, m);
      assert NamedBy(es, rows[t].orderId) && NamedBy(es, rows[m].orderId);
      NewcomerTop(rows, o, rows[t]);
      NewcomerTop(rows, o, rows[m]);
      PendingKept(rows, rows + [o], es[i], t, m);
    }
  }

  lemma CreateHeldTop(rows: seq<Order>, o: Order, r: Order)
    requires HeldRow(rows, r) && Top(rows, r) && (SameBook(r, o) ==> !Ahead(o, r) && r.createdAt != o.createdAt)
    ensures HeldRow(rows + [o], r) && Top(rows + [o], r)
  {
    NewcomerTop(rows, o, r);
    TopKept(rows, rows + [o], r);
    KeepsHeld(rows, rows + [o], r);
  }

  lemma CreateClear(rows: seq<Order>, es: seq<Execution>, o: Order, c: Candidate, e: Execution)
    requires Clear(rows, c, e) && !e.Names(o.orderId)
    ensures Clear(rows + [o], c, e)
  {
  }

  lemma CreatePhase(rows: seq<Order>, es: seq<Execution>, o: Order, p: Phase)
    requires Pendings(rows, es) && PhaseOnce(p, rows, es) && o.status == Active && !HasId(rows, o.orderId)
    requires p.Busy? ==> forall r | r in {p.pair.taker, p.pair.maker} && SameBook(r, o) ::
             !Ahead(o, r) && r.createdAt != o.createdAt
    ensures PhaseOnce(p, rows + [o], es)
  {
    if p.Busy? {
      var (c, rows') := (p.pair, rows + [o]);
      hide Decided, Ahead, Pendings, Clear, HeldRow, Top, HasId, SameBook;
      StrangerUnnamed(rows, es, o.orderId);
      if HeldPair(rows, c) && Top(rows, c.taker) && Top(rows, c.maker) {
        CreateHeldTop(rows, o, c.taker);
        CreateHeldTop(rows, o, c.maker);
      }
      forall i | 0 <= i < |es| ensures Clear(rows', c, es[i]) {
        assert !es[i].Names(o.orderId);
        CreateClear(rows, es, o, c, es[i]);
      }
    }
  }

  /** A held pair's orders are rows of the table, of other times than any newcomer. */
  lemma PairIsOld(s: State, o: Order)
    requires Inv(s) && |s.matchers| == 1 && s.matchers[0].Busy? && Calm(s, Create(o))
    ensures forall r | r in {s.matchers[0].pair.taker, s.matchers[0].pair.maker} && SameBook(r, o) ::
            !Ahead(o, r) && r.createdAt != o.createdAt
  {
    var c := s.matchers[0].pair;
    assert PhaseOk(s.matchers[0], s.born);
    forall r | r in {c.taker, c.maker} && SameBook(r, o) ensures !Ahead(o, r) && r.createdAt != o.createdAt {
      assert HasId(s.db.rows, r.orderId);
      var i :| 0 <= i < |s.db.rows| && s.db.rows[i].orderId == r.orderId;
      assert RowOk(s.db.rows[i], s.born, s.db.trades);
      assert Guarded(s, s.db.rows[i].orderId);
    }
  }

  lemma CreateCreation(s: State, o: Order)
    requires Creation(s.db.rows, s.born) && Calm(s, Create(o))
    ensures Creation(s.db.rows + [o.(status := Active)], s.born[o.orderId := o.(status := Active)])
  {
    hide Guarded;
  }

  lemma CreateGuards(s: State, o: Order)
    requires Inv(s) && |s.matchers| == 1 && Calm(s, Create(o)) && !Clashes(s.db.rows, o)
    ensures !HasId(s.db.rows, o.orderId)
    ensures forall i | 0 <= i < |s.db.rows| :: s.db.rows[i].createdAt != o.createdAt
              && (NamedBy(s.unrecorded, s.db.rows[i].orderId) && SameBook(s.db.rows[i], o) ==> !Ahead(o, s.db.rows[i]))
    ensures var p := s.matchers[0];
            p.Busy? ==> forall r | r in {p.pair.taker, p.pair.maker} && SameBook(r, o) ::
              !Ahead(o, r) && r.createdAt != o.createdAt
  {
    if s.matchers[0].Busy? { PairIsOld(s, o); }
    hide Inv, NamedBy, Ahead, SameBook;
    forall i | 0 <= i < |s.db.rows| && NamedBy(s.unrecorded, s.db.rows[i].orderId) && SameBook(s.db.rows[i], o)
      ensures !Ahead(o, s.db.rows[i])
    {
      assert Guarded(s, s.db.rows[i].orderId);
    }
  }

  lemma CreateRowsOnce(s: State, o: Order)
    requires Inv(s) && |s.matchers| == 1 && Calm(s, Create(o)) && !Clashes(s.db.rows, o)
    requires Pendings(s.db.rows, s.unrecorded) && PhaseOnce(s.matchers[0], s.db.rows, s.unrecorded)
    ensures var rows' := s.db.rows + [o.(status := Active)];
            Pendings(rows', s.unrecorded) && PhaseOnce(s.matchers[0], rows', s.unrecorded)
  {
    CreateGuards(s, o);
    var o' := o.(status := Active);
    hide Pendings, PhaseOnce, Inv, Calm, Clashes, NamedBy, HasId;
    CreatePendings(s.db.rows, s.unrecorded, o');
    CreatePhase(s.db.rows, s.unrecorded, o', s.matchers[0]);
  }

  lemma OnceCreate(s: State, o: Order)
    requires Inv(s) && Once(s) && Enabled(s, Create(o)) && Calm(s, Create(o))
    ensures Once(Apply(s, Create(o)))
  {
    hide Once, Pendings, PhaseOnce, Inv, Reservations, Creation, Calm, Clashes, Accounts;
    OnceParts(s);
    StepKeepsReservations(s, Create(o));
    if !Clashes(s.db.rows, o) {
      CreateCreation(s, o);
      CreateRowsOnce(s, o);
      OnceWhole(Apply(s, Create(o)));
    }
  }

  lemma CancelThins(rows: seq<Order>, owner: string, nonce: real)
    ensures Thins(rows, CancelRows(rows, owner, nonce))
  {
  }

  lemma ExpireThins(rows: seq<Order>, now: int)
    ensures Thins(rows, ExpireRows(rows, now))
  {
  }

  lemma OnceCancel(s: State, owner: string, nonce: real)
    requires Inv(s) && Once(s) && Calm(s, Cancel(owner, nonce))
    ensures Once(Apply(s, Cancel(owner, nonce)))
  {
    hide Once, Inv, Reservations, NamedBy, Cancellable, CancelRow, Thins;
    OnceParts(s);
    StepKeepsReservations(s, Cancel(owner, nonce));
    CancelThins(s.db.rows, owner, nonce);
    var s' := Apply(s, Cancel(owner, nonce));
    if s' != s { ThinStep(s, s'); }
  }

  lemma OnceExpire(s: State, now: int)
    requires Inv(s) && Once(s) && NoneExpires(s, now)
    ensures Once(Apply(s, Expire(now)))
  {
    hide Once, Inv, Reservations, NamedBy, ExpireRow, Thins;
    OnceParts(s);
    StepKeepsReservations(s, Expire(now));
    ExpireThins(s.db.rows, now);
    ThinStep(s, Apply(s, Expire(now)));
  }

  // ---------------------------------------------------------------- acquiring a pair

  ghost predicate Ordered(rows: seq<Order>) {
    UniqueKeys(rows) && forall i, j | 0 <= i < j < |rows| :: rows[i].createdAt != rows[j].createdAt
  }

  lemma BestIsTop(rows: seq<Order>, market: Market, side: Side, i: nat)
    requires Ordered(rows) && IsBest(rows, market, side, i)
    ensures Top(rows, rows[i])
  {
    forall j | 0 <= j < |rows| && Resting(rows[j], market, side) && rows[j].orderId != rows[i].orderId
      ensures Ahead(rows[i], rows[j])
    {
      assert !Ahead(rows[j], rows[i]);
      assert rows[i].createdAt != rows[j].createdAt;
    }
  }

  lemma TopIsBest(rows: seq<Order>, market: Market, side: Side, i: nat, j: nat)
    requires UniqueKeys(rows) && IsBest(rows, market, side, i)
    requires j < |rows| && Resting(rows[j], market, side) && Top(rows, rows[j])
    ensures i == j
  {
  }

  /** A released unrecorded match of the market is exactly the pair reserved next. */
  lemma Repicked(rows: seq<Order>, market: Market, b: nat, a: nat, e: Execution, t: nat, m: nat)
    requires UniqueKeys(rows) && IsBest(rows, market, Buy, b) && IsBest(rows, market, Sell, a)
    requires PendingAt(rows, e, t, m) && rows[t].status == Active && rows[t].market == market
    ensures ChooseTakerMaker(rows[b], rows[a]) == Candidate(rows[t], rows[m])
  {
    hide Decided;
    if rows[t].side.Buy? {
      TopIsBest(rows, market, Buy, b, t);
      TopIsBest(rows, market, Sell, a, m);
    } else {
      TopIsBest(rows, market, Buy, b, m);
      TopIsBest(rows, market, Sell, a, t);
    }
  }

  lemma ReserveTop(rows: seq<Order>, ids: set<string>, o: Order)
    ensures NoNewRivals(rows, ReserveRows(rows, ids), o)
  {
  }

  lemma ReserveOwn(rows: seq<Order>, market: Market, b: nat, a: nat, e: Execution, t: nat, m: nat)
    requires UniqueKeys(rows) && IsBest(rows, market, Buy, b) && IsBest(rows, market, Sell, a)
    requires PendingAt(rows, e, t, m) && rows[t].status == Active && rows[t].market == market
    ensures var c := ChooseTakerMaker(rows[b], rows[a]);
            var rows' := ReserveRows(rows, Ids(c));
            Pending(rows', e) && Clear(rows', c, e)
  {
    Repicked(rows, market, b, a, e, t, m);
    var c := ChooseTakerMaker(rows[b], rows[a]);
    var rows' := ReserveRows(rows, Ids(c));
    hide Decided, Top, Ahead, ChooseTakerMaker, IsBest;
    assert rows'[t] == rows[t].(status := Matching) && rows'[m] == rows[m].(status := Matching);
    assert PendingAt(rows', e, t, m);
  }

  lemma ReserveOther(rows: seq<Order>, market: Market, b: nat, a: nat, e: Execution, t: nat, m: nat)
    requires UniqueKeys(rows) && b < |rows| && Resting(rows[b], market, Buy) && a < |rows|
             && Resting(rows[a], market, Sell)
    requires PendingAt(rows, e, t, m) && (rows[t].status == Matching || rows[t].market != market)
    ensures var c := ChooseTakerMaker(rows[b], rows[a]);
            var rows' := ReserveRows(rows, Ids(c));
            Pending(rows', e) && Clear(rows', c, e)
  {
    var c := ChooseTakerMaker(rows[b], rows[a]);
    var rows' := ReserveRows(rows, Ids(c));
    hide Decided, Top, NoNewRivals, Ahead, ChooseTakerMaker, ReserveRow, ReserveRows, UniqueKeys, Ids;
    StrangersToPair(rows, market, b, a, t, m);
    ReserveKeeps(rows, Ids(c), t);
    ReserveKeeps(rows, Ids(c), m);
    ReserveTop(rows, Ids(c), rows[t]);
    ReserveTop(rows, Ids(c), rows[m]);
    PendingKept(rows, rows', e, t, m);
    ClearStranger(rows', c, e, t, m);
  }

  lemma StrangersToPair(rows: seq<Order>, market: Market, b: nat, a: nat, t: nat, m: nat)
    requires UniqueKeys(rows) && b < |rows| && Resting(rows[b], market, Buy) && a < |rows|
             && Resting(rows[a], market, Sell)
    requires t < |rows| && m < |rows| && rows[t].market == rows[m].market && rows[t].status == rows[m].status
    requires rows[t].status == Matching || rows[t].market != market
    ensures var c := ChooseTakerMaker(rows[b], rows[a]);
            rows[t].orderId !in Ids(c) && rows[m].orderId !in Ids(c) && c.taker.market == market
  {
    DistinctIds(rows, t, b); DistinctIds(rows, t, a); DistinctIds(rows, m, b); DistinctIds(rows, m, a);
    hide UniqueKeys, StringAfter;
  }

  lemma DistinctIds(rows: seq<Order>, i: nat, j: nat)
    requires UniqueKeys(rows) && i < |rows| && j < |rows| && rows[i] != rows[j]
    ensures rows[i].orderId != rows[j].orderId
  {
  }

  lemma ClearStranger(rows: seq<Order>, c: Candidate, e: Execution, t: nat, m: nat)
    requires UniqueKeys(rows) && t < |rows| && m < |rows| && rows[t].orderId == e.taker && rows[m].orderId == e.maker
    requires e.taker !in Ids(c) && e.maker !in Ids(c) && rows[t].market == rows[m].market
    requires rows[t].market == c.taker.market ==> rows[t].status == Matching && rows[m].status == Matching
    ensures Clear(rows, c, e)
  {
    OnlyPairNames(rows, e, t, m);
    hide UniqueKeys;
  }

  lemma OnlyPairNames(rows: seq<Order>, e: Execution, t: nat, m: nat)
    requires UniqueKeys(rows) && t < |rows| && m < |rows| && rows[t].orderId == e.taker && rows[m].orderId == e.maker
    ensures forall i | 0 <= i < |rows| && e.Names(rows[i].orderId) :: i == t || i == m
  {
  }

  lemma ReserveKeeps(rows: seq<Order>, ids: set<string>, i: nat)
    requires i < |rows| && (rows[i].orderId !in ids || rows[i].status != Active) && UniqueKeys(rows)
    ensures ReserveRows(rows, ids)[i] == rows[i]
    ensures UniqueKeys(ReserveRows(rows, ids))
  {
  }

  lemma ReservePending(rows: seq<Order>, market: Market, b: nat, a: nat, e: Execution)
    requires UniqueKeys(rows) && IsBest(rows, market, Buy, b) && IsBest(rows, market, Sell, a) && Pending(rows, e)
    ensures var c := ChooseTakerMaker(rows[b], rows[a]);
            var rows' := ReserveRows(rows, Ids(c));
            Pending(rows', e) && Clear(rows', c, e)
  {
    var t: nat, m: nat :| PendingAt(rows, e, t, m);
    hide Decided, Top, Ahead, ChooseTakerMaker, ReserveRows, Pending, Clear, UniqueKeys;
    if rows[t].status == Active && rows[t].market == market {
      ReserveOwn(rows, market, b, a, e, t, m);
    } else {
      ReserveOther(rows, market, b, a, e, t, m);
    }
  }

  lemma OnceReserve(rows: seq<Order>, market: Market, now: int, b: nat, a: nat, es: seq<Execution>)
    requires Ordered(rows) && IsBest(rows, market, Buy, b) && IsBest(rows, market, Sell, a) && Pendings(rows, es)
    ensures var c := ChooseTakerMaker(rows[b], rows[a]);
            var rows' := ReserveRows(rows, Ids(c));
            Pendings(rows', es) && PhaseOnce(Busy(c, Checking(now)), rows', es)
  {
    var c := ChooseTakerMaker(rows[b], rows[a]);
    var rows' := ReserveRows(rows, Ids(c));
    assert rows[b].createdAt != rows[a].createdAt;
    assert rows'[b] == rows[b].(status := Matching) && rows'[a] == rows[a].(status := Matching);
    BestIsTop(rows, market, Buy, b);
    BestIsTop(rows, market, Sell, a);
    hide Ordered, Top, NoNewRivals, Pending, Clear, Ahead, ReserveRows, IsBest;
    ReserveTop(rows, Ids(c), rows[b]);
    ReserveTop(rows, Ids(c), rows[a]);
    TopKept(rows, rows', rows[b]);
    TopKept(rows, rows', rows[a]);
    assert HeldRow(rows', rows[b]) && HeldRow(rows', rows[a]);
    forall i | 0 <= i < |es| ensures Pending(rows', es[i]) && Clear(rows', c, es[i]) {
      OrderedKeys(rows);
      ReservePending(rows, market, b, a, es[i]);
    }
  }

  lemma OrderedKeys(rows: seq<Order>)
    requires Ordered(rows)
    ensures UniqueKeys(rows)
  {
  }

  lemma CreationOrders(s: State)
    requires Inv(s) && Creation(s.db.rows, s.born)
    ensures Ordered(s.db.rows)
  {
    hide RowOk, TradesOk, PhaseOk;
  }

  lemma ReserveCreation(rows: seq<Order>, born: map<string, Order>, ids: set<string>)
    requires Creation(rows, born)
    ensures Creation(ReserveRows(rows, ids), born)
  {
  }

  lemma OnceAcquire(s: State, k: nat, market: Market, now: int, bid: Option<nat>, ask: Option<nat>)
    requires Inv(s) && Once(s) && Enabled(s, Acquire(k, market, now, bid, ask)) && NoneExpires(s, now)
    ensures Once(Apply(s, Acquire(k, market, now, bid, ask)))
  {
    var s' := Apply(s, Acquire(k, market, now, bid, ask));
    var s1 := Apply(s, Expire(now));
    var live := s1.db.rows;
    AcquireForm(s, k, market, now, bid, ask);
    hide Once, Pendings, PhaseOnce, Reservations, Accounts, Creation, Inv, ExpireRows, Ordered, NoneExpires,
        ReserveRows, ChooseTakerMaker, IsBest, AcquireTx;
    OnceParts(s);
    StepKeepsReservations(s, Acquire(k, market, now, bid, ask));
    StepKeepsInv(s, Expire(now));
    OnceExpire(s, now);
    OnceParts(s1);
    if bid.Some? && ask.Some? {
      CreationOrders(s1);
      OnceReserve(live, market, now, bid.value, ask.value, s.unrecorded);
      ReserveCreation(live, s.born, Ids(ChooseTakerMaker(live[bid.value], live[ask.value])));
      OnceWhole(s');
    }
  }

  // ---------------------------------------------------------------- checking

  lemma OnceCheck(s: State, k: nat)
    requires Inv(s) && Once(s) && Enabled(s, Check(k))
    ensures Once(Apply(s, Check(k)))
  {
    hide Inv, Once, Pendings, Reservations, Accounts, Creation, Clear, HeldPair, Top, NotReserved, Decided, Decide,
        CheckStage;
    OnceParts(s);
    var p := s.matchers[0];
    CheckDecides(p.pair, p.stage.now);
    StepKeepsReservations(s, Check(k));
    CheckPhase(s.db.rows, p.pair, p.stage.now, s.unrecorded);
    OnceWhole(Apply(s, Check(k)));
  }

  lemma CheckPhase(rows: seq<Order>, c: Candidate, now: int, un: seq<Execution>)
    requires PhaseOnce(Busy(c, Checking(now)), rows, un)
    ensures PhaseOnce(Busy(c, CheckStage(c, now)), rows, un)
  {
    CheckDecides(c, now);
    hide Clear, HeldPair, Top, NotReserved, Decided, CheckStage;
  }

  lemma CheckDecides(c: Candidate, now: int)
    ensures var g := CheckStage(c, now);
            !g.Recording? && !g.Checking? && (g.Submitting? ==> Decided(c, g.units, g.fill))
  {
    hide ComputeExecutionUnits, Crosses, FillOf;
  }

  // ---------------------------------------------------------------- submitting

  lemma DecidedUnique(c: Candidate, u: int, f: int, v: int, g: int)
    requires Decided(c, u, f) && Decided(c, v, g)
    ensures u == v && f == g
  {
    hide ComputeExecutionUnits, Crosses, FillOf;
  }

  lemma DecidedMeans(c: Candidate, units: int, fill: int)
    requires Decided(c, units, fill) && c.taker.side != c.maker.side
    ensures fill == FillOf(c) > 0 && units > 0 && Tradeable(c)
    ensures Proportional(c.taker, fill, units) && Proportional(c.maker, fill, units)
    ensures SignedAmount(c.taker) > 0 && SignedAmount(c.maker) > 0
  {
    hide Decide, SignedAmount;
    var now :| Decide(c, now).Submit? && Decide(c, now).units.amount == units && Decide(c, now).fill == fill;
    SubmitMeans(c, now);
  }

  lemma HeldAt(rows: seq<Order>, o: Order, i: nat)
    requires UniqueKeys(rows) && HeldRow(rows, o) && i < |rows| && rows[i].orderId == o.orderId
    ensures rows[i] == o.(status := Matching)
  {
    var j :| 0 <= j < |rows| && rows[j] == o.(status := Matching);
    IndexIsUnique(rows, i, j);
  }

  lemma PendingIsMatch(rows: seq<Order>, c: Candidate, units: int, fill: int, e: Execution)
    requires UniqueKeys(rows) && HeldPair(rows, c) && PairOnce(c) && Pending(rows, e) && Decided(c, units, fill)
    requires e.taker == c.taker.orderId && e.maker == c.maker.orderId
    ensures e == MatchOf(c, units, fill)
  {
    hide Decided, Top, UniqueKeys, HeldRow;
    var t: nat, m: nat :| PendingAt(rows, e, t, m);
    HeldAt(rows, c.taker, t);
    HeldAt(rows, c.maker, m);
    assert Snapshot(rows[t], rows[m]) == c;
    DecidedUnique(c, units, fill, e.units, e.fill);
  }

  lemma {:induction false} UsedApart(es: seq<Execution>, id: string)
    requires !NamedBy(es, id)
    ensures Used(es, id) == 0
  {
    if es != [] {
      assert !es[|es| - 1].Names(id);
      assert forall i | 0 <= i < |es| - 1 :: es[..|es| - 1][i] == es[i];
      UsedApart(es[..|es| - 1], id);
    }
  }

  lemma {:induction false} UsedOnce(es: seq<Execution>, e: Execution, id: string)
    requires e in es && e.Names(id) && forall i, j | 0 <= i < j < |es| :: Apart(es[i], es[j])
    ensures Used(es, id) == e.units
  {
    var n := |es| - 1;
    var front := es[..n];
    assert forall i | 0 <= i < n :: front[i] == es[i];
    if es[n].Names(id) {
      forall i | 0 <= i < n ensures !front[i].Names(id) {
        assert Apart(es[i], es[n]);
      }
      UsedApart(front, id);
    } else {
      UsedOnce(front, e, id);
    }
  }

  /** A held order's recorded units are its share of what is filled. */
  lemma RecordedShare(s: State, o: Order)
    requires Inv(s) && Creation(s.db.rows, s.born) && HeldRow(s.db.rows, o)
    ensures Used(s.settled, o.orderId) * o.desired == o.filled * SignedAmount(o)
    ensures o.desired > 0
  {
    var i :| 0 <= i < |s.db.rows| && s.db.rows[i] == o.(status := Matching);
    InvRow(s, i);
    hide Inv, TradesOk, Used, SignedAmount, TradeVolume;
    OrderBudget(s.db.rows[i], s.born, s.db.trades, s.settled);
    SignedByAction(o, s.db.rows[i]);
  }

  lemma CapArithmetic(used: int, units: int, fill: int, filled: int, desired: int, signed: int)
    requires used * desired == filled * signed && units * desired == fill * signed
    requires desired > 0 && signed > 0 && filled + fill <= desired
    ensures used + units <= signed
    ensures filled + fill == desired ==> used + units == signed
  {
    assert (used + units) * desired == (filled + fill) * signed;
    MulMono(filled + fill, desired, signed);
    if used + units > signed { MulMono(signed + 1, used + units, desired); }
    if filled + fill == desired { MulCancel(used + units, signed, desired); }
  }

  /** One order's cap: free for the match while it is not on chain, exhausted by a second copy of
      it when the match uses the order up. */
  lemma CapOf(s: State, o: Order, units: int, fill: int, pending: bool)
    requires Inv(s) && Once(s) && HeldRow(s.db.rows, o)
    requires Proportional(o, fill, units) && SignedAmount(o) > 0 && units > 0 && o.filled + fill <= o.desired
    requires Used(s.unrecorded, o.orderId) == if pending then units else 0
    ensures !pending ==> Used(s.executions, o.orderId) + units <= SignedAmount(o)
    ensures pending && o.filled + fill == o.desired ==> Used(s.executions, o.orderId) + units > SignedAmount(o)
  {
    RecordedShare(s, o);
    CapArithmetic(Used(s.settled, o.orderId), units, fill, o.filled, o.desired, SignedAmount(o));
    assert Used(s.executions, o.orderId) == Used(s.settled, o.orderId) + Used(s.unrecorded, o.orderId);
  }

  /** What the invariant says of a pair that is decided: held, and clear of other matches. */
  ghost predicate Poised(rows: seq<Order>, c: Candidate, units: int, fill: int, es: seq<Execution>) {
    && UniqueKeys(rows) && HeldPair(rows, c) && PairOnce(c) && Decided(c, units, fill)
    && c.taker.side != c.maker.side && c.taker.market == c.maker.market
    && Pendings(rows, es) && forall i | 0 <= i < |es| :: Clear(rows, c, es[i])
  }

  lemma PoisedNow(s: State)
    requires Inv(s) && Once(s) && s.matchers[0].Busy?
             && (s.matchers[0].stage.Submitting? || s.matchers[0].stage.Recording?)
    ensures var (c, g) := (s.matchers[0].pair, s.matchers[0].stage);
            Poised(s.db.rows, c, g.units, g.fill, s.unrecorded) && Top(s.db.rows, c.taker) && Top(s.db.rows, c.maker)
  {
    assert PhaseOk(s.matchers[0], s.born);
    hide RowOk, TradesOk, Pendings, Decided, Creation, Accounts, Reservations, HeldPair, Top, UniqueKeys, Clear,
        NotReserved, Executable, StageKnows;
  }

  lemma OwnMatches(rows: seq<Order>, c: Candidate, units: int, fill: int, es: seq<Execution>, i: nat, id: string)
    requires Poised(rows, c, units, fill, es) && i < |es| && id in Ids(c) && es[i].Names(id)
    ensures es[i] == MatchOf(c, units, fill)
  {
    hide Pending, Decided, HeldPair, Top, UniqueKeys;
    assert Clear(rows, c, es[i]);
    PendingIsMatch(rows, c, units, fill, es[i]);
  }

  /** Either the pair's match is the one unrecorded match naming its orders, or none names them. */
  lemma OwnOrNone(rows: seq<Order>, c: Candidate, units: int, fill: int, es: seq<Execution>, id: string)
    requires Poised(rows, c, units, fill, es) && id in Ids(c)
    ensures if MatchOf(c, units, fill) in es then Used(es, id) == units else Used(es, id) == 0 && !NamedBy(es, id)
  {
    hide Pending, Decided, HeldPair, UniqueKeys, Clear, Used;
    var e := MatchOf(c, units, fill);
    if e in es {
      UsedOnce(es, e, id);
    } else {
      forall i | 0 <= i < |es| ensures !es[i].Names(id) {
        if es[i].Names(id) { OwnMatches(rows, c, units, fill, es, i, id); }
      }
      UsedApart(es, id);
    }
  }

  lemma HeldOfPoised(rows: seq<Order>, c: Candidate, units: int, fill: int, es: seq<Execution>)
    requires Poised(rows, c, units, fill, es)
    ensures HeldRow(rows, c.taker) && HeldRow(rows, c.maker)
    ensures fill == FillOf(c) > 0 && units > 0 && Tradeable(c)
    ensures Proportional(c.taker, fill, units) && Proportional(c.maker, fill, units)
    ensures SignedAmount(c.taker) > 0 && SignedAmount(c.maker) > 0
  {
    hide HeldRow, Decided, Pendings, Clear, UniqueKeys, SignedAmount, Proportional;
    DecidedMeans(c, units, fill);
  }

  lemma FillUsesUpOne(c: Candidate)
    requires Tradeable(c)
    ensures c.taker.filled + FillOf(c) <= c.taker.desired && c.maker.filled + FillOf(c) <= c.maker.desired
    ensures c.taker.filled + FillOf(c) == c.taker.desired || c.maker.filled + FillOf(c) == c.maker.desired
  {
  }

  /** The chain refuses a submission exactly when that very match is executed and unrecorded. */
  lemma RefusedIff(s: State, c: Candidate, units: int, fill: int)
    requires Inv(s) && Once(s) && Poised(s.db.rows, c, units, fill, s.unrecorded)
    ensures Refused(s.executions, c, units) <==> MatchOf(c, units, fill) in s.unrecorded
  {
    var pending := MatchOf(c, units, fill) in s.unrecorded;
    hide Inv, Once, Used, SignedAmount, HeldRow, Poised, Proportional, Tradeable, FillOf;
    HeldOfPoised(s.db.rows, c, units, fill, s.unrecorded);
    OwnOrNone(s.db.rows, c, units, fill, s.unrecorded, c.taker.orderId);
    OwnOrNone(s.db.rows, c, units, fill, s.unrecorded, c.maker.orderId);
    FillUsesUpOne(c);
    CapOf(s, c.taker, units, fill, pending);
    CapOf(s, c.maker, units, fill, pending);
  }

  lemma AccountsAppend(ex: seq<Execution>, st: seq<Execution>, un: seq<Execution>, e: Execution)
    requires Accounts(ex, st, un)
    ensures Accounts(ex + [e], st, un + [e])
  {
    forall id ensures Used(ex + [e], id) == Used(st, id) + Used(un + [e], id) {
      UsedAppend(ex, e, id);
      UsedAppend(un, e, id);
    }
    hide Used;
  }

  lemma UsedAppend(es: seq<Execution>, e: Execution, id: string)
    ensures Used(es + [e], id) == Used(es, id) + if e.Names(id) then e.units else 0
  {
    assert (es + [e])[..|es|] == es;
  }

  /** The pair's own match, once on chain, is a pending match like any other. */
  lemma OwnIsPending(rows: seq<Order>, c: Candidate, units: int, fill: int, es: seq<Execution>)
    requires Poised(rows, c, units, fill, es)
    ensures Pending(rows, MatchOf(c, units, fill))
  {
    hide Decided, Pendings, UniqueKeys, Clear, Top;
    var t :| 0 <= t < |rows| && rows[t] == c.taker.(status := Matching);
    var m :| 0 <= m < |rows| && rows[m] == c.maker.(status := Matching);
    assert Snapshot(rows[t], rows[m]) == c;
    assert PendingAt(rows, MatchOf(c, units, fill), t, m);
  }

  lemma SendPendings(rows: seq<Order>, c: Candidate, units: int, fill: int, es: seq<Execution>)
    requires Poised(rows, c, units, fill, es) && MatchOf(c, units, fill) !in es
    ensures Poised(rows, c, units, fill, es + [MatchOf(c, units, fill)])
  {
    var e := MatchOf(c, units, fill);
    hide Decided, UniqueKeys, HeldPair, Clear;
    OwnIsPending(rows, c, units, fill, es);
    OwnOrNone(rows, c, units, fill, es, c.taker.orderId);
    OwnOrNone(rows, c, units, fill, es, c.maker.orderId);
    hide Pending, Used;
    assert Clear(rows, c, e) by { ClearOwn(rows, c, e); }
  }

  lemma ClearOwn(rows: seq<Order>, c: Candidate, e: Execution)
    requires e.taker == c.taker.orderId && e.maker == c.maker.orderId
    ensures Clear(rows, c, e)
  {
  }

  lemma PhaseFromPoised(rows: seq<Order>, c: Candidate, units: int, fill: int, es: seq<Execution>, stage: Stage)
    requires Poised(rows, c, units, fill, es) && Top(rows, c.taker) && Top(rows, c.maker)
    requires stage in {Failing, Releasing} || (stage == Recording(units, fill) && MatchOf(c, units, fill) in es)
    ensures Pendings(rows, es) && PhaseOnce(Busy(c, stage), rows, es)
  {
    hide Decided, Pendings, UniqueKeys, HeldPair, Clear, Top, NotReserved;
  }

  lemma OnceSend(s: State, k: nat, transport: Transport)
    requires Inv(s) && Once(s) && Enabled(s, Send(k, transport))
    ensures Once(Apply(s, Send(k, transport)))
  {
    hide Inv, Once, Accounts, Creation, Poised, Pendings, PhaseOnce, Reservations, Top, Refused, Apply;
    OnceParts(s);
    var (c, units, fill) := (s.matchers[0].pair, s.matchers[0].stage.units, s.matchers[0].stage.fill);
    PoisedNow(s);
    SendForm(s, k, transport);
    StepKeepsReservations(s, Send(k, transport));
    SendParts(s, c, units, fill);
    OnceWhole(Apply(s, Send(k, transport)));
  }

  /** What a submission leaves behind, carried out or not. */
  lemma SendParts(s: State, c: Candidate, units: int, fill: int)
    requires Inv(s) && Once(s) && Poised(s.db.rows, c, units, fill, s.unrecorded) && Top(s.db.rows, c.taker)
             && Top(s.db.rows, c.maker)
    ensures var (e, rows, un) := (MatchOf(c, units, fill), s.db.rows, s.unrecorded);
            && PhaseOnce(Busy(c, Failing), rows, un)
            && if Refused(s.executions, c, units) then PhaseOnce(Busy(c, Recording(units, fill)), rows, un)
               else
                 && Accounts(s.executions + [e], s.settled, un + [e]) && Pendings(rows, un + [e])
                 && PhaseOnce(Busy(c, Failing), rows, un + [e])
                   && PhaseOnce(Busy(c, Recording(units, fill)), rows, un + [e])
  {
    var (e, rows, un) := (MatchOf(c, units, fill), s.db.rows, s.unrecorded);
    hide Inv, Reservations, Accounts, Creation, Poised, Pendings, PhaseOnce, Top, Refused;
    RefusedIff(s, c, units, fill);
    PhaseFromPoised(rows, c, units, fill, un, Failing);
    if Refused(s.executions, c, units) {
      PhaseFromPoised(rows, c, units, fill, un, Recording(units, fill));
    } else {
      AccountsAppend(s.executions, s.settled, un, e);
      SendPendings(rows, c, units, fill, un);
      PhaseFromPoised(rows, c, units, fill, un + [e], Failing);
      PhaseFromPoised(rows, c, units, fill, un + [e], Recording(units, fill));
    }
  }

  // ---------------------------------------------------------------- recording

  lemma RemoveOneFacts(es: seq<Execution>, e: Execution)
    requires e in es
    ensures multiset(RemoveOne(es, e)) == multiset(es) - multiset{e}
    ensures forall f | f in RemoveOne(es, e) :: f in es
    ensures |RemoveOne(es, e)| == |es| - 1
  {
    RemoveOneSplits(es, e);
    var less := RemoveOne(es, e);
    hide RemoveOne;
    assert |multiset(es)| == |multiset(less)| + 1;
    forall f | f in less ensures f in es {
      assert f in multiset(less);
      assert f in multiset(es);
    }
  }

  lemma {:induction false} RemoveOneSplits(es: seq<Execution>, e: Execution)
    requires e in es
    ensures multiset(es) == multiset(RemoveOne(es, e)) + multiset{e}
  {
    assert es == [es[0]] + es[1..];
    if es[0] != e {
      RemoveOneSplits(es[1..], e);
    }
  }

  lemma {:induction false} UsedPrepend(e: Execution, es: seq<Execution>, id: string)
    ensures Used([e] + es, id) == Used(es, id) + if e.Names(id) then e.units else 0
  {
    if es != [] {
      assert ([e] + es)[..|es|] == [e] + es[..|es| - 1];
      UsedPrepend(e, es[..|es| - 1], id);
    } else {
      assert [e] + es == [e] && [e][..0] == [];
    }
  }

  lemma {:induction false} UsedRemove(es: seq<Execution>, e: Execution, id: string)
    requires e in es
    ensures Used(RemoveOne(es, e), id) == Used(es, id) - if e.Names(id) then e.units else 0
  {
    assert es == [es[0]] + es[1..];
    UsedPrepend(es[0], es[1..], id);
    if es[0] != e {
      UsedRemove(es[1..], e, id);
      UsedPrepend(es[0], RemoveOne(es[1..], e), id);
    }
  }

  lemma AccountsMove(ex: seq<Execution>, st: seq<Execution>, un: seq<Execution>, e: Execution)
    requires Accounts(ex, st, un) && e in un
    ensures Accounts(ex, st + [e], RemoveOne(un, e))
  {
    RemoveOneFacts(un, e);
    forall id ensures Used(ex, id) == Used(st + [e], id) + Used(RemoveOne(un, e), id) {
      UsedAppend(st, e, id);
      UsedRemove(un, e, id);
    }
    hide Used, RemoveOne;
    assert multiset(st + [e]) == multiset(st) + multiset{e};
  }

  ghost predicate AllApart(es: seq<Execution>) { forall i, j | 0 <= i < j < |es| :: Apart(es[i], es[j]) }

  ghost predicate ApartFrom(f: Execution, es: seq<Execution>) { forall i | 0 <= i < |es| :: Apart(f, es[i]) }

  lemma RestApart(es: seq<Execution>)
    requires es != [] && AllApart(es)
    ensures ApartFrom(es[0], es[1..]) && AllApart(es[1..])
  {
    hide Apart;
    assert forall i | 0 <= i < |es| - 1 :: es[1..][i] == es[i + 1];
  }

  lemma FewerApart(f: Execution, es: seq<Execution>, less: seq<Execution>)
    requires ApartFrom(f, es) && forall g | g in less :: g in es
    ensures ApartFrom(f, less)
  {
    hide Apart;
    forall j | 0 <= j < |less| ensures Apart(f, less[j]) {
      assert less[j] in es;
    }
  }

  lemma ConsApart(f: Execution, es: seq<Execution>)
    requires ApartFrom(f, es) && AllApart(es)
    ensures AllApart([f] + es)
  {
    hide Apart;
    forall i, j | 0 <= i < j < |[f] + es| ensures Apart(([f] + es)[i], ([f] + es)[j]) {
      if i > 0 { assert Apart(es[i - 1], es[j - 1]); }
    }
  }

  lemma ApartBothWays(e: Execution, f: Execution)
    requires Apart(e, f)
    ensures Apart(f, e)
  {
  }

  /** What is left after removing e is pairwise apart, and apart from e. */
  lemma {:induction false} RemoveApart(es: seq<Execution>, e: Execution)
    requires e in es && AllApart(es)
    ensures AllApart(RemoveOne(es, e)) && ApartFrom(e, RemoveOne(es, e))
    ensures forall f | f in RemoveOne(es, e) :: !f.Names(e.taker) && !f.Names(e.maker)
  {
    var (first, rest) := (es[0], es[1..]);
    assert es == [first] + rest;
    hide Apart, ApartFrom, AllApart;
    RestApart(es);
    if first != e {
      RemoveApart(rest, e);
      RemoveOneFacts(rest, e);
      FewerApart(first, rest, RemoveOne(rest, e));
      ConsApart(first, RemoveOne(rest, e));
      FewerApart(first, rest, [e]);
      HeadApart(first, e, RemoveOne(rest, e));
    }
    NamesApart(e, RemoveOne(es, e));
  }

  lemma HeadApart(f: Execution, e: Execution, es: seq<Execution>)
    requires ApartFrom(f, [e]) && ApartFrom(e, es)
    ensures ApartFrom(e, [f] + es)
  {
    assert Apart(f, [e][0]);
    ApartBothWays(f, e);
    hide Apart;
  }

  lemma NamesApart(e: Execution, es: seq<Execution>)
    requires ApartFrom(e, es)
    ensures forall f | f in es :: !f.Names(e.taker) && !f.Names(e.maker)
  {
    forall f | f in es ensures !f.Names(e.taker) && !f.Names(e.maker) {
      var i :| 0 <= i < |es| && es[i] == f;
      assert Apart(e, es[i]);
      ApartBothWays(e, es[i]);
    }
  }

  /** Rows of one market change hands; nobody in another market gains a rival. */
  lemma OtherMarket(rows: seq<Order>, rows': seq<Order>, t: nat, m: nat, o: Order)
    requires |rows'| == |rows| && t < |rows| && m < |rows|
    requires forall i | 0 <= i < |rows| && i != t && i != m :: rows'[i] == rows[i]
    requires rows'[t].market != o.market && rows'[m].market != o.market
    ensures NoNewRivals(rows, rows', o)
  {
  }

  /** A stranger to the pair stays pending while the pair's own two rows change. */
  lemma StrangerKept(rows: seq<Order>, rows': seq<Order>, c: Candidate, t: nat, m: nat, f: Execution)
    requires UniqueKeys(rows) && Pending(rows, f) && Clear(rows, c, f) && !f.Names(c.taker.orderId)
             && !f.Names(c.maker.orderId)
    requires |rows'| == |rows| && t < |rows| && m < |rows|
    requires rows[t].orderId == c.taker.orderId && rows[m].orderId == c.maker.orderId
    requires forall i | 0 <= i < |rows| && i != t && i != m :: rows'[i] == rows[i]
    requires SamePlace(rows[t], rows'[t]) && SamePlace(rows[m], rows'[m])
    requires rows[t].market == rows[m].market == c.taker.market
    ensures Pending(rows', f) && Clear(rows', c, f)
  {
    hide Decided, Top, NoNewRivals, UniqueKeys;
    var ft: nat, fm: nat :| PendingAt(rows, f, ft, fm);
    if rows[ft].status == Active {
      OtherMarket(rows, rows', t, m, rows[ft]);
      OtherMarket(rows, rows', t, m, rows[fm]);
    }
    PendingKept(rows, rows', f, ft, fm);
  }

  lemma FilledIsFree(rows: seq<Order>, t: nat, m: nat, fill: int)
    requires UniqueKeys(rows) && t < |rows| && m < |rows| && t != m
    ensures var rows' := rows[t := FilledRow(rows[t], fill)][m := FilledRow(rows[m], fill)];
            NotReserved(rows', rows[t].orderId) && NotReserved(rows', rows[m].orderId)
  {
  }

  /** What is left unrecorded stays pending, and clear of the pair that was recorded. */
  lemma RecordStrangers(rows: seq<Order>, rows': seq<Order>, c: Candidate, units: int, fill: int, es: seq<Execution>,
      t: nat, m: nat)
    requires Poised(rows, c, units, fill, es) && MatchOf(c, units, fill) in es
    requires t < |rows| && m < |rows| && t != m && rows[t].orderId == c.taker.orderId
             && rows[m].orderId == c.maker.orderId
    requires rows' == rows[t := FilledRow(rows[t], fill)][m := FilledRow(rows[m], fill)]
    ensures var less := RemoveOne(es, MatchOf(c, units, fill));
            AllApart(less) && forall i | 0 <= i < |less| :: Pending(rows', less[i]) && Clear(rows', c, less[i])
  {
    var e := MatchOf(c, units, fill);
    HeldAt(rows, c.taker, t);
    HeldAt(rows, c.maker, m);
    RemoveApart(es, e);
    RemoveOneFacts(es, e);
    var less := RemoveOne(es, e);
    hide Decided, Pending, Clear, UniqueKeys, RemoveOne, HeldPair;
    forall i | 0 <= i < |less| ensures Pending(rows', less[i]) && Clear(rows', c, less[i]) {
      assert less[i] in less && less[i] in es;
      StrangerKept(rows, rows', c, t, m, less[i]);
    }
  }

  lemma RecordPendings(rows: seq<Order>, rows': seq<Order>, c: Candidate, units: int, fill: int, es: seq<Execution>,
      t: nat, m: nat)
    requires Poised(rows, c, units, fill, es) && MatchOf(c, units, fill) in es
    requires t < |rows| && m < |rows| && t != m && rows[t].orderId == c.taker.orderId
             && rows[m].orderId == c.maker.orderId
    requires rows' == rows[t := FilledRow(rows[t], fill)][m := FilledRow(rows[m], fill)]
    ensures Pendings(rows', RemoveOne(es, MatchOf(c, units, fill)))
    ensures PhaseOnce(Busy(c, Releasing), rows', RemoveOne(es, MatchOf(c, units, fill)))
  {
    hide Pending, Clear, RemoveOne, HeldPair, NotReserved, Top, FilledRow, Decided;
    RecordStrangers(rows, rows', c, units, fill, es, t, m);
    FilledIsFree(rows, t, m, fill);
    hide UniqueKeys;
  }

  lemma RecordCreation(rows: seq<Order>, born: map<string, Order>, t: nat, m: nat, fill: int)
    requires Creation(rows, born) && t < |rows| && m < |rows|
    ensures Creation(rows[t := FilledRow(rows[t], fill)][m := FilledRow(rows[m], fill)], born)
  {
  }

  lemma RecordParts(s: State)
    requires |s.matchers| == 1 && Enabled(s, Record(0, true)) && Apply(s, Record(0, true)).matchers[0].Idle? && Inv(s)
             && Once(s)
    ensures var (p, s') := (s.matchers[0], Apply(s, Record(0, true)));
            var un := RemoveOne(s.unrecorded, MatchOf(p.pair, p.stage.units, p.stage.fill));
            && Pendings(s'.db.rows, un) && Creation(s'.db.rows, s.born)
            && PhaseOnce(Busy(p.pair, Releasing), s'.db.rows, un)
            && Accounts(s.executions, s.settled + [MatchOf(p.pair, p.stage.units, p.stage.fill)], un)
  {
    var s' := Apply(s, Record(0, true));
    var (c, units, fill) := (s.matchers[0].pair, s.matchers[0].stage.units, s.matchers[0].stage.fill);
    PoisedNow(s);
    assert MatchOf(c, units, fill) in s.unrecorded;
    hide Inv, Reservations, Accounts, Creation, Poised, Pendings, PhaseOnce, Top, RemoveOne, Apply;
    var t, m := RecordEffect(s, 0);
    RecordPendings(s.db.rows, s'.db.rows, c, units, fill, s.unrecorded, t, m);
    RecordCreation(s.db.rows, s.born, t, m, fill);
    AccountsMove(s.executions, s.settled, s.unrecorded, MatchOf(c, units, fill));
  }

  lemma OnceRecord(s: State, k: nat, dbOk: bool)
    requires Inv(s) && Once(s) && Enabled(s, Record(k, dbOk))
    ensures Once(Apply(s, Record(k, dbOk)))
  {
    hide Inv, Once, Reservations, Accounts, Creation, Poised, Pendings, PhaseOnce, Top, RemoveOne, Apply;
    OnceParts(s);
    var s' := Apply(s, Record(k, dbOk));
    var (c, g) := (s.matchers[0].pair, s.matchers[0].stage);
    RecordForm(s, k, dbOk);
    PoisedNow(s);
    StepKeepsReservations(s, Record(k, dbOk));
    if s'.matchers[0].Idle? {
      IdlePhase(s'.db.rows, s'.unrecorded);
      RecordParts(s);
    } else {
      PhaseFromPoised(s.db.rows, c, g.units, g.fill, s.unrecorded, Releasing);
    }
    OnceWhole(s');
  }

  lemma OnceUnheard(s: State, k: nat)
    requires Inv(s) && Once(s) && Enabled(s, RecordUnheard(k))
    ensures Once(Apply(s, RecordUnheard(k)))
  {
    hide Inv, Once, Reservations, Accounts, Creation, Poised, Pendings, PhaseOnce, Top, RemoveOne, Apply;
    OnceParts(s);
    var (c, g) := (s.matchers[0].pair, s.matchers[0].stage);
    UnheardForm(s, k);
    RecordForm(s, k, true);
    PoisedNow(s);
    StepKeepsReservations(s, RecordUnheard(k));
    if Apply(s, Record(k, true)).matchers[0].Idle? {
      RecordParts(s);
    } else {
      PhaseFromPoised(s.db.rows, c, g.units, g.fill, s.unrecorded, Releasing);
    }
    OnceWhole(Apply(s, RecordUnheard(k)));
  }

  lemma OnceCrash(s: State, k: nat)
    requires Inv(s) && Once(s) && Enabled(s, Crash(k))
    ensures Once(Apply(s, Crash(k)))
  {
    hide Inv, Once, Reservations, Accounts, Creation, Pendings, PhaseOnce;
    OnceParts(s);
    IdlePhase(s.db.rows, s.unrecorded);
    StepKeepsReservations(s, Crash(k));
    OnceWhole(Apply(s, Crash(k)));
  }

  lemma IdlePhase(rows: seq<Order>, es: seq<Execution>)
    ensures PhaseOnce(Idle, rows, es)
  {
  }

  // ---------------------------------------------------------------- releasing

  ghost predicate Holding(rows: seq<Order>, c: Candidate, es: seq<Execution>) {
    && UniqueKeys(rows) && HeldPair(rows, c) && Top(rows, c.taker) && Top(rows, c.maker) && PairOnce(c)
    && c.taker.side != c.maker.side && c.taker.market == c.maker.market
    && Pendings(rows, es) && forall i | 0 <= i < |es| :: Clear(rows, c, es[i])
  }

  /** Of the released rows only c.taker's stands on its side, only c.maker's on the other. */
  lemma ReleaseTop(rows: seq<Order>, rows': seq<Order>, o: Order, t: nat, m: nat)
    requires |rows'| == |rows| && t < |rows| && m < |rows| && Top(rows, o)
    requires forall i | 0 <= i < |rows| && i != t && i != m :: rows'[i] == rows[i]
    requires rows'[t].orderId == o.orderId && rows'[m].side != o.side
    ensures Top(rows', o)
  {
  }

  lemma ReleaseOwn(rows: seq<Order>, rows': seq<Order>, c: Candidate, e: Execution, t: nat, m: nat)
    requires UniqueKeys(rows) && Pending(rows, e) && e.taker == c.taker.orderId && e.maker == c.maker.orderId
    requires |rows'| == |rows| && t < |rows| && m < |rows| && t != m && PairOnce(c)
    requires rows[t] == c.taker.(status := Matching) && rows[m] == c.maker.(status := Matching)
    requires rows' == rows[t := c.taker][m := c.maker]
    requires Top(rows, c.taker) && Top(rows, c.maker) && c.taker.side != c.maker.side
    ensures Pending(rows', e)
  {
    var et: nat, em: nat :| PendingAt(rows, e, et, em);
    IndexIsUnique(rows, t, et);
    IndexIsUnique(rows, m, em);
    hide Decided, UniqueKeys, Top;
    ReleaseTop(rows, rows', c.taker, t, m);
    ReleaseTop(rows, rows', c.maker, m, t);
    assert Snapshot(rows'[t], rows'[m]) == Snapshot(rows[t], rows[m]);
    assert PendingAt(rows', e, t, m);
  }

  lemma ReleaseRowsIs(rows: seq<Order>, c: Candidate, t: nat, m: nat)
    requires UniqueKeys(rows) && t < |rows| && m < |rows| && PairOnce(c)
    requires rows[t] == c.taker.(status := Matching) && rows[m] == c.maker.(status := Matching)
    ensures ReleaseRows(rows, Ids(c)) == rows[t := c.taker][m := c.maker]
  {
    assert forall i | 0 <= i < |rows| && i != t && i != m :: rows[i].orderId !in Ids(c);
  }

  lemma ReleaseHeld(rows: seq<Order>, c: Candidate, es: seq<Execution>)
    requires Holding(rows, c, es)
    ensures var rows' := ReleaseRows(rows, Ids(c));
            && Pendings(rows', es) && (forall i | 0 <= i < |es| :: Clear(rows', c, es[i]))
            && NotReserved(rows', c.taker.orderId) && NotReserved(rows', c.maker.orderId)
  {
    var t: nat :| t < |rows| && rows[t] == c.taker.(status := Matching);
    var m: nat :| m < |rows| && rows[m] == c.maker.(status := Matching);
    var rows' := ReleaseRows(rows, Ids(c));
    ReleaseRowsIs(rows, c, t, m);
    ReleasedFree(rows, c);
    hide Decided, UniqueKeys, Top, Pending, ReleaseRows, HeldPair, NotReserved;
    forall i | 0 <= i < |es| ensures Pending(rows', es[i]) && Clear(rows', c, es[i]) {
      assert Clear(rows, c, es[i]);
      if es[i].taker == c.taker.orderId && es[i].maker == c.maker.orderId {
        ReleaseOwn(rows, rows', c, es[i], t, m);
      } else {
        StrangerKept(rows, rows', c, t, m, es[i]);
      }
    }
  }

  lemma ReleasedFree(rows: seq<Order>, c: Candidate)
    ensures NotReserved(ReleaseRows(rows, Ids(c)), c.taker.orderId)
    ensures NotReserved(ReleaseRows(rows, Ids(c)), c.maker.orderId)
  {
  }

  lemma ReleaseNothing(rows: seq<Order>, c: Candidate)
    requires NotReserved(rows, c.taker.orderId) && NotReserved(rows, c.maker.orderId)
    ensures ReleaseRows(rows, Ids(c)) == rows
  {
  }

  lemma ReleaseCreation(rows: seq<Order>, born: map<string, Order>, ids: set<string>)
    requires Creation(rows, born)
    ensures Creation(ReleaseRows(rows, ids), born)
  {
  }

  /** Releasing, from either of the two situations a failing or releasing matcher can be in. */
  lemma ReleaseOnce(s: State)
    requires Inv(s) && Once(s) && s.matchers[0].Busy?
             && (s.matchers[0].stage.Failing? || s.matchers[0].stage.Releasing?)
    ensures var (c, rows', un) := (s.matchers[0].pair, Unreserve(s, s.matchers[0].pair).db.rows, s.unrecorded);
            Pendings(rows', un) && PhaseOnce(Busy(c, Releasing), rows', un) && Creation(rows', s.born)
    ensures s.matchers[0].stage.Failing? ==> PhaseOnce(Busy(s.matchers[0].pair, Releasing), s.db.rows, s.unrecorded)
  {
    var (c, rows, un) := (s.matchers[0].pair, s.db.rows, s.unrecorded);
    assert PhaseOk(s.matchers[0], s.born);
    assert UniqueKeys(rows);
    hide Inv, Pendings, Clear, HeldPair, Top, UniqueKeys, NotReserved, Accounts, Creation, ReleaseRows, Reservations,
        Decided;
    ReleaseCreation(rows, s.born, Ids(c));
    if HeldPair(rows, c) && Top(rows, c.taker) && Top(rows, c.maker) {
      assert Holding(rows, c, un);
      ReleaseHeld(rows, c, un);
    } else {
      ReleaseNothing(rows, c);
    }
  }

  lemma OnceFail(s: State, k: nat, dbOk: bool)
    requires Inv(s) && Once(s) && Enabled(s, Fail(k, dbOk))
    ensures Once(Apply(s, Fail(k, dbOk)))
  {
    hide Inv, Once, Pendings, PhaseOnce, Reservations, Accounts, Creation, Apply, Unreserve;
    OnceParts(s);
    ReleaseForm(s, k, dbOk);
    ReleaseOnce(s);
    UnreserveFrame(s, s.matchers[0].pair);
    StepKeepsReservations(s, Fail(k, dbOk));
    OnceWhole(Apply(s, Fail(k, dbOk)));
  }

  lemma OnceLetGo(s: State, k: nat, dbOk: bool)
    requires Inv(s) && Once(s) && Enabled(s, LetGo(k, dbOk))
    ensures Once(Apply(s, LetGo(k, dbOk)))
  {
    hide Inv, Once, Pendings, PhaseOnce, Reservations, Accounts, Creation, Apply, Unreserve;
    OnceParts(s);
    ReleaseForm(s, k, dbOk);
    ReleaseOnce(s);
    UnreserveFrame(s, s.matchers[0].pair);
    IdlePhase(Apply(s, LetGo(k, dbOk)).db.rows, s.unrecorded);
    StepKeepsReservations(s, LetGo(k, dbOk));
    OnceWhole(Apply(s, LetGo(k, dbOk)));
  }

  // ---------------------------------------------------------------- the theorem

  lemma StepKeepsOnce(s: State, step: Step)
    requires Inv(s) && Once(s) && Enabled(s, step) && Calm(s, step)
    ensures Once(Apply(s, step))
  {
    hide Inv, Once, Apply, NoneExpires;
    match step
    case Create(o) => OnceCreate(s, o);
    case Cancel(owner, nonce) => OnceCancel(s, owner, nonce);
    case Expire(now) => OnceExpire(s, now);
    case Acquire(k, market, now, bid, ask) => OnceAcquire(s, k, market, now, bid, ask);
    case Check(k) => OnceCheck(s, k);
    case Send(k, transport) => OnceSend(s, k, transport);
    case Record(k, dbOk) => OnceRecord(s, k, dbOk);
    case RecordUnheard(k) => OnceUnheard(s, k);
    case Fail(k, dbOk) => OnceFail(s, k, dbOk);
    case LetGo(k, dbOk) => OnceLetGo(s, k, dbOk);
    case Crash(k) => OnceCrash(s, k);
  }

  lemma {:induction false} RunKeepsOnce(s: State, steps: seq<Step>, s': State)
    requires Inv(s) && Once(s) && CalmRun(s, steps, s')
    ensures Inv(s') && Once(s')
    decreases |steps|
  {
    if steps != [] {
      StepKeepsInv(s, steps[0]);
      StepKeepsOnce(s, steps[0]);
      hide Apply, Inv, Enabled, Once, Calm;
      RunKeepsOnce(Apply(s, steps[0]), steps[1..], s');
    }
  }

  lemma InitialOnce()
    ensures Once(Initial(1))
  {
    assert forall id :: Used([], id) == 0;
  }

  /** The trade rows mirror their on-chain matches one to one. */
  ghost predicate Mirrors(trades: seq<Trade>, settled: seq<Execution>) {
    |trades| == |settled| && forall j | 0 <= j < |trades| ::
      trades[j].taker == settled[j].taker && trades[j].maker == settled[j].maker && trades[j].size == settled[j].fill
  }

  lemma MirrorsNow(s: State)
    requires Inv(s)
    ensures Mirrors(s.db.trades, s.settled)
  {
    hide RowsOk, PhaseOk, Executable, PairOk;
    forall j | 0 <= j < |s.db.trades|
      ensures s.db.trades[j].taker == s.settled[j].taker && s.db.trades[j].maker == s.settled[j].maker
              && s.db.trades[j].size == s.settled[j].fill
    {
      assert TradeOk(s.db.trades[j], s.settled[j], s.born);
    }
  }
}

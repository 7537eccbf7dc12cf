/** internal/matching/engine.go: one tick of one instrument against the store and the executor, and
    the polling loop. A tick run without interference is a run of the protocol. */
module MatchEngine {
  import opened MatchRules
  import opened Orders
  import opened Protocol
  import opened Store
  import opened Ticks
  import opened Wrappers

  /** What the executor is asked to settle: price and amount in the units the owners signed. */
  datatype Submission = Submission(pair: Candidate, price: int, amount: int)

  /** Both orders are alive, the price is the one the maker signed and no worse for the taker than
      its own, and the amount is the smaller of the two remainders in the proportion each signed. */
  predicate KeepsSigned(s: Submission, now: int) {
    var (t, m) := (s.pair.taker, s.pair.maker);
    var (left, right) := (t.desired - t.filled, m.desired - m.filled);
    var fill := if left <= right then left else right;
    && now < t.expiry && now < m.expiry
    && t.market == m.market && t.side == m.side.Opposite()
    && s.price == SignedPrice(m)
    && (if t.side == Buy then s.price <= SignedPrice(t) else s.price >= SignedPrice(t))
    && fill > 0 && s.amount * t.desired == fill * SignedAmount(t) && s.amount * m.desired == fill * SignedAmount(m)
  }

  lemma SubmissionKeepsSigned(c: Candidate, now: int)
    requires Decide(c, now).Submit? && c.taker.market == c.maker.market && c.taker.side == c.maker.side.Opposite()
    ensures KeepsSigned(Submission(c, Decide(c, now).units.price, Decide(c, now).units.amount), now)
  {
    hide SignedPrice, SignedAmount, Decide, FillOf, Crosses, Tradeable;
    SubmitMeans(c, now);
    SubmitPrice(c, now);
  }

  /** The executor with the chain behind it, as far as the matcher can tell, and what it was asked. */
  class Executor {
    var executions: seq<Execution>
    var submissions: seq<Submission>

    constructor ()
      ensures executions == [] && submissions == []
    {
      executions, submissions := [], [];
    }

    /** The chain carries the match out or refuses it, and the reply may be lost. */
    method SubmitMatchForMarket(pair: Candidate, units: Units, fill: int, transport: Transport) returns (reply: Reply)
      modifies this
      ensures (executions, reply) == ChainResult(old(executions), pair, units.amount, fill, transport)
      ensures submissions == old(submissions) + [Submission(pair, units.price, units.amount)]
    {
      submissions := submissions + [Submission(pair, units.price, units.amount)];
      if transport == NotDelivered {
        return OtherError;
      }
      if Refused(executions, pair, units.amount) {
        return if transport == Delivered then FillLimitCrossed else OtherError;
      }
      executions := executions + [MatchOf(pair, units.amount, fill)];
      return if transport == Delivered then Accepted else OtherError;
    }
  }

  /** What the outside world decides during one tick: when it runs, what becomes of the
      submission, which store calls work, and whether the word of a recording gets through. */
  datatype Weather =
    Weather(now: int, transport: Transport, failOk: bool, recordOk: bool, recordHeard: bool, releaseOk: bool)

  /** The step is the matcher's own and meets this weather. */
  predicate Obeys(step: Step, w: Weather) {
    match step
    case Acquire(_, _, now, _, _) => now == w.now
    case Check(_) => true
    case Send(_, transport) => transport == w.transport
    case Record(_, dbOk) => if w.recordOk then dbOk && w.recordHeard else !dbOk
    case RecordUnheard(_) => w.recordOk && !w.recordHeard
    case Fail(_, dbOk) => dbOk == w.failOk
    case LetGo(_, dbOk) => dbOk == w.releaseOk
    case _ => false
  }

  predicate Meets(steps: seq<Step>, w: Weather) { forall i | 0 <= i < |steps| :: Obeys(steps[i], w) }

  /** The markets a run polls, in order. */
  function Polled(steps: seq<Step>): seq<Market> {
    if steps == [] then []
    else (if steps[0].Acquire? then [steps[0].market] else []) + Polled(steps[1..])
  }

  predicate Submits(steps: seq<Step>) { exists i :: 0 <= i < |steps| && steps[i].Send? }

  lemma SubmitsConcat(first: seq<Step>, second: seq<Step>)
    ensures Submits(first + second) == (Submits(first) || Submits(second))
  {
    if i :| 0 <= i < |second| && second[i].Send? { assert (first + second)[|first| + i].Send?; }
    if i :| 0 <= i < |first| && first[i].Send? { assert (first + second)[i].Send?; }
  }

  lemma {:induction false} PolledConcat(first: seq<Step>, second: seq<Step>)
    ensures Polled(first + second) == Polled(first) + Polled(second)
    ensures Submits(first + second) == (Submits(first) || Submits(second))
  {
    SubmitsConcat(first, second);
    if first == [] {
      assert first + second == second;
    } else {
      assert (first + second)[1..] == first[1..] + second;
      PolledConcat(first[1..], second);
    }
  }

  lemma PolledOne(step: Step)
    ensures Polled([step]) == if step.Acquire? then [step.market] else []
    ensures Submits([step]) == step.Send?
  {
    assert [step][0] == step;
    assert [step][1..] == [];
  }

  lemma Extend(s: State, steps: seq<Step>, mid: State, step: Step, w: Weather)
    requires Protocol.Run(s, steps, mid) && Meets(steps, w) && Enabled(mid, step) && Obeys(step, w)
    ensures Protocol.Run(s, steps + [step], Apply(mid, step)) && Meets(steps + [step], w)
    ensures Polled(steps + [step]) == Polled(steps) + if step.Acquire? then [step.market] else []
    ensures Submits(steps + [step]) == (Submits(steps) || step.Send?)
  {
    RunAppend(s, steps, mid, step);
    hide Protocol.Run, Apply, Enabled, Polled, Submits;
    PolledConcat(steps, [step]);
    PolledOne(step);
  }

  lemma Begin(s: State, step: Step, w: Weather)
    requires Enabled(s, step) && Obeys(step, w)
    ensures Protocol.Run(s, [step], Apply(s, step)) && Meets([step], w)
    ensures Polled([step]) == (if step.Acquire? then [step.market] else []) && Submits([step]) == step.Send?
  {
    RunNone(s);
    RunAppend(s, [], s, step);
    assert [] + [step] == [step];
    hide Protocol.Run, Apply, Enabled, Polled, Submits;
    PolledOne(step);
  }

  lemma Join(s: State, first: seq<Step>, mid: State, second: seq<Step>, s': State, w: Weather)
    requires Protocol.Run(s, first, mid) && Meets(first, w) && Protocol.Run(mid, second, s') && Meets(second, w)
    ensures Protocol.Run(s, first + second, s') && Meets(first + second, w)
    ensures Polled(first + second) == Polled(first) + Polled(second)
    ensures Submits(first + second) == (Submits(first) || Submits(second))
  {
    hide Protocol.Run, Polled, Submits;
    RunConcat(s, first, mid, second, s');
    PolledConcat(first, second);
  }

  lemma AcquireReads(s: State, market: Market, now: int, bid: Option<nat>, ask: Option<nat>, c: Option<Candidate>)
    requires s.matchers == [Idle]
    requires IsHead(ExpireRows(s.db.rows, now), market, Buy, bid)
    requires IsHead(ExpireRows(s.db.rows, now), market, Sell, ask)
    requires AcquireTx(s.db.rows, now, bid, ask).1 == c
    ensures Enabled(s, Acquire(0, market, now, bid, ask))
    ensures Apply(s, Acquire(0, market, now, bid, ask))
            == s.(db := s.db.(rows := AcquireTx(s.db.rows, now, bid, ask).0),
              matchers := [if c.Some? then Busy(c.value, Checking(now)) else Idle])
  {
    hide ExpireRows, IsHead, AcquireTx;
  }

  lemma CheckReads(s: State, c: Candidate, now: int)
    requires s.matchers == [Busy(c, Checking(now))]
    ensures Enabled(s, Check(0)) && Apply(s, Check(0)) == s.(matchers := [Busy(c, CheckStage(c, now))])
  {
    hide CheckStage;
  }

  lemma FailReads(s: State, c: Candidate, dbOk: bool)
    requires s.matchers == [Busy(c, Failing)]
    ensures Enabled(s, Fail(0, dbOk)) && Apply(s, Fail(0, dbOk)).matchers == [Busy(c, Releasing)]
    ensures Apply(s, Fail(0, dbOk)).executions == s.executions
    ensures Apply(s, Fail(0, dbOk)).db == if dbOk then s.db.(rows := ReleaseRows(s.db.rows, Ids(c))) else s.db
  {
    hide ReleaseRows;
    ReleaseForm(s, 0, dbOk);
  }

  lemma LetGoReads(s: State, c: Candidate, dbOk: bool)
    requires s.matchers == [Busy(c, Releasing)]
    ensures Enabled(s, LetGo(0, dbOk)) && Apply(s, LetGo(0, dbOk)).matchers == [Idle]
    ensures Apply(s, LetGo(0, dbOk)).executions == s.executions
    ensures Apply(s, LetGo(0, dbOk)).db == if dbOk then s.db.(rows := ReleaseRows(s.db.rows, Ids(c))) else s.db
  {
    hide ReleaseRows;
    ReleaseForm(s, 0, dbOk);
  }

  /** The protocol's view of one idle matcher over the store and the chain. */
  ghost predicate Views(s: State, db: Db, executions: seq<Execution>) {
    s.matchers == [Idle] && s.db == db && s.executions == executions
  }

  class Engine {
    const orders: Repository
    const executor: Executor

    constructor (orders: Repository, executor: Executor)
      ensures this.orders == orders && this.executor == executor
    {
      this.orders, this.executor := orders, executor;
    }

    /** From a decided submission to its end: submit, then record or mark as failed. The pair is
        still to be released unless it was recorded. */
    method SubmitAndRecord(pair: Candidate, units: Units, fill: int, w: Weather, ghost s: State)
      returns (release: bool, ghost steps: seq<Step>, ghost s': State)
      requires orders.Valid() && s.matchers == [Busy(pair, Submitting(units.amount, fill))]
      requires s.db == orders.Contents() && s.executions == executor.executions
      modifies orders, executor
      ensures orders.Valid() && s'.db == orders.Contents() && s'.executions == executor.executions
      ensures Protocol.Run(s, steps, s') && s'.matchers == [if release then Busy(pair, Releasing) else Idle]
      ensures Meets(steps, w) && Polled(steps) == []
      ensures Submits(steps)
      ensures executor.submissions == old(executor.submissions) + [Submission(pair, units.price, units.amount)]
    {
      hide Protocol.Run, Meets, Polled, Submits, ChainResult, FinalizeTx, ReleaseRows, Refused, UniqueKeys;
      ghost var send := Send(0, w.transport);
      ghost var s1 := Apply(s, send);
      SendForm(s, 0, w.transport);
      SendReply(s, w.transport);
      Begin(s, send, w);
      steps := [send];
      var reply := executor.SubmitMatchForMarket(pair, units, fill, w.transport);
      assert s1.executions == executor.executions;
      if !ShouldFinalize(reply) {
        FailReads(s1, pair, w.failOk);
        Extend(s, steps, s1, Fail(0, w.failOk), w);
        steps, s' := steps + [Fail(0, w.failOk)], Apply(s1, Fail(0, w.failOk));
        if w.failOk {
          orders.ReleaseMatch(pair.taker.orderId, pair.maker.orderId);
        }
        return true, steps, s';
      }
      ghost var record := if w.recordOk && !w.recordHeard then RecordUnheard(0) else Record(0, w.recordOk);
      RecordForm(s1, 0, w.recordOk);
      RecordOutcome(s1, w.recordOk);
      UnheardForm(s1, 0);
      Extend(s, steps, s1, record, w);
      steps, s' := steps + [record], Apply(s1, record);
      if !w.recordOk {
        return true, steps, s';
      }
      var recorded := orders.FinalizeMatchWithPrice(pair.taker.orderId, pair.maker.orderId, pair.maker.limitPrice,
          fill);
      return recorded.Err? || !w.recordHeard, steps, s';
    }

    /** One tick: acquire a pair, decide, submit and record, and release whatever was not
        recorded. Without interference it is a run of the protocol back to an idle matcher. */
    method TickInstrument(market: Market, w: Weather, ghost s: State) returns (ghost steps: seq<Step>, ghost s': State)
      requires orders.Valid() && Views(s, orders.Contents(), executor.executions)
      modifies orders, executor
      ensures orders.Valid() && Views(s', orders.Contents(), executor.executions) && Protocol.Run(s, steps, s')
      ensures Meets(steps, w) && Polled(steps) == [market]
      ensures var (before, after) := (old(executor.submissions), executor.submissions);
              && before <= after && |after| <= |before| + 1
              && (|after| == |before| + 1 <==> Submits(steps))
              && (forall k | |before| <= k < |after| ::
                KeepsSigned(after[k], w.now) && after[k].pair.taker.market == market)
    {
      hide Protocol.Run, Apply, Enabled, Meets, Polled, Submits, KeepsSigned, FirstInLine, NoneRests, ExpireRows,
          AcquireTx, ReleaseRows, IsHead, UniqueKeys, ComputeExecutionUnits, FillOf, Crosses;
      var candidate, bid, ask := orders.AcquireMatchCandidate(market, w.now);
      ghost var first := Acquire(0, market, w.now, bid, ask);
      AcquireReads(s, market, w.now, bid, ask, candidate);
      Begin(s, first, w);
      steps, s' := [first], Apply(s, first);
      if candidate.None? {
        return;
      }
      var pair, now := candidate.value, w.now;
      CheckReads(s', pair, now);
      Extend(s, steps, s', Check(0), w);
      steps, s' := steps + [Check(0)], Apply(s', Check(0));
      var release := true;
      if !pair.taker.IsExpired(now) && !pair.maker.IsExpired(now) && Crosses(pair.taker, pair.maker)
          && FillOf(pair) != 0 {
        var fill := FillOf(pair);
        var converted := ComputeExecutionUnits(pair, pair.maker.ticks, fill);
        if converted.Err? {
          FailReads(s', pair, w.failOk);
          Extend(s, steps, s', Fail(0, w.failOk), w);
          steps, s' := steps + [Fail(0, w.failOk)], Apply(s', Fail(0, w.failOk));
          if w.failOk {
            orders.ReleaseMatch(pair.taker.orderId, pair.maker.orderId);
          }
        } else {
          ghost var s2, more := s', [];
          SubmissionKeepsSigned(pair, now);
          release, more, s' := SubmitAndRecord(pair, converted.value, fill, w, s2);
          Join(s, steps, s2, more, s', w);
          steps := steps + more;
        }
      }
      if release {
        LetGoReads(s', pair, w.releaseOk);
        Extend(s, steps, s', LetGo(0, w.releaseOk), w);
        steps, s' := steps + [LetGo(0, w.releaseOk)], Apply(s', LetGo(0, w.releaseOk));
        if w.releaseOk {
          orders.ReleaseMatch(pair.taker.orderId, pair.maker.orderId);
        }
      }
    }

    /** The polling loop over the enabled instruments. */
    method Run(polls: seq<(Market, Weather)>, ghost s: State) returns (ghost steps: seq<Step>, ghost s': State)
      requires orders.Valid() && Views(s, orders.Contents(), executor.executions)
      modifies orders, executor
      ensures orders.Valid() && Views(s', orders.Contents(), executor.executions) && Protocol.Run(s, steps, s')
      ensures Polled(steps) == seq(|polls|, i requires 0 <= i < |polls| => polls[i].0)
      ensures forall i | 0 <= i < |steps| :: exists j :: 0 <= j < |polls| && Obeys(steps[i], polls[j].1)
      ensures old(executor.submissions) <= executor.submissions
      ensures forall k | |old(executor.submissions)| <= k < |executor.submissions| ::
                exists j :: 0 <= j < |polls| && KeepsSigned(executor.submissions[k], polls[j].1.now)
    {
      hide Protocol.Run, Obeys, UniqueKeys, KeepsSigned;
      steps, s' := [], s;
      RunNone(s);
      for i := 0 to |polls|
        invariant orders.Valid() && Views(s', orders.Contents(), executor.executions) && Protocol.Run(s, steps, s')
        invariant Polled(steps) == seq(i, j requires 0 <= j < i => polls[j].0)
        invariant forall k | 0 <= k < |steps| :: exists j :: 0 <= j < i && Obeys(steps[k], polls[j].1)
        invariant old(executor.submissions) <= executor.submissions
        invariant forall k | |old(executor.submissions)| <= k < |executor.submissions| ::
                    exists j :: 0 <= j < i && KeepsSigned(executor.submissions[k], polls[j].1.now)
      {
        ghost var more, mid := TickInstrument(polls[i].0, polls[i].1, s');
        RunConcat(s, steps, s', more, mid);
        PolledConcat(steps, more);
        steps, s' := steps + more, mid;
      }
    }
  }
}

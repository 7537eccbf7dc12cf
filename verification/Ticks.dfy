/** The steps of a lone matcher in closed form, and runs put together from them. */
module Ticks {
  import opened MatchRules
  import opened Orders
  import opened Protocol
  import opened Wrappers

  /** Acquiring is expiring, then reserving the two heads if there are two. */
  lemma AcquireForm(s: State, k: nat, market: Market, now: int, bid: Option<nat>, ask: Option<nat>)
    requires Enabled(s, Acquire(k, market, now, bid, ask)) && |s.matchers| == 1
    ensures var (s1, s') := (Apply(s, Expire(now)), Apply(s, Acquire(k, market, now, bid, ask)));
            && s1.matchers == [Idle] && s1 == s.(db := s1.db)
            && if bid.Some? && ask.Some? then
                 && IsBest(s1.db.rows, market, Buy, bid.value) && IsBest(s1.db.rows, market, Sell, ask.value)
                 && var c := ChooseTakerMaker(s1.db.rows[bid.value], s1.db.rows[ask.value]);
                    s' == s1.(db := s1.db.(rows := ReserveRows(s1.db.rows, Ids(c))),
                      matchers := [Busy(c, Checking(now))])
               else s' == s1
  {
    hide ExpireRow, ReserveRow, ChooseTakerMaker;
    assert s.matchers == [Idle];
  }

  /** Acquiring when both sides have a head. */
  lemma AcquireHeads(s: State, k: nat, market: Market, now: int, b: nat, a: nat, live: seq<Order>, c: Candidate)
    requires k < |s.matchers| && s.matchers[k] == Idle && live == ExpireRows(s.db.rows, now)
    requires IsBest(live, market, Buy, b) && IsBest(live, market, Sell, a) && c == ChooseTakerMaker(live[b], live[a])
    ensures Enabled(s, Acquire(k, market, now, Some(b), Some(a)))
    ensures Apply(s, Acquire(k, market, now, Some(b), Some(a))) ==
              WithPhase(s.(db := s.db.(rows := ReserveRows(live, Ids(c)))), k, Busy(c, Checking(now)))
  {
    assert b < |live| && a < |live|;
    hide ChooseTakerMaker, ExpireRows, ReserveRows, IsBest;
  }

  /** The two shapes a submission can leave behind. */
  lemma SendForm(s: State, k: nat, transport: Transport)
    requires |s.matchers| == 1 && Enabled(s, Send(k, transport))
    ensures var (c, g, s') := (s.matchers[0].pair, s.matchers[0].stage, Apply(s, Send(k, transport)));
            var (e, refused) := (MatchOf(c, g.units, g.fill), Refused(s.executions, c, g.units));
            if refused || transport == NotDelivered then
              s' == s.(matchers := [Busy(c, if refused
                && transport == Delivered then Recording(g.units, g.fill) else Failing)])
            else
              s' == s.(executions := s.executions + [e], unrecorded := s.unrecorded + [e],
                       matchers := [Busy(c, if transport == Delivered then Recording(g.units, g.fill) else Failing)])
  {
    hide Refused;
    assert s.matchers == [s.matchers[0]];
  }

  /** A failed recording only moves the matcher on; a successful one is what RecordEffect says. */
  lemma RecordForm(s: State, k: nat, dbOk: bool)
    requires |s.matchers| == 1 && Enabled(s, Record(k, dbOk))
    ensures var (c, g, s') := (s.matchers[0].pair, s.matchers[0].stage, Apply(s, Record(k, dbOk)));
            var e := MatchOf(c, g.units, g.fill);
            if s'.matchers[0].Idle? then
              dbOk
                && s' == s.(db := s'.db, settled := s.settled + [e], unrecorded := RemoveOne(s.unrecorded, e),
                  matchers := [Idle])
            else s' == s.(matchers := [Busy(c, Releasing)])
  {
    hide FinalizeTx, RemoveOne;
    assert s.matchers == [s.matchers[0]];
  }

  /** A recording whose success goes unheard. */
  lemma UnheardForm(s: State, k: nat)
    requires |s.matchers| == 1 && Enabled(s, RecordUnheard(k))
    ensures Enabled(s, Record(k, true)) && |Apply(s, Record(k, true)).matchers| == 1
    ensures Apply(s, RecordUnheard(k)) == Apply(s, Record(k, true)).(matchers := [Busy(s.matchers[0].pair, Releasing)])
  {
    hide FinalizeTx, RemoveOne;
    assert s.matchers == [s.matchers[0]];
  }

  lemma ReleaseForm(s: State, k: nat, dbOk: bool)
    requires |s.matchers| == 1
    ensures Enabled(s, Fail(k, dbOk)) ==>
              (var s1 := if dbOk then Unreserve(s, s.matchers[0].pair) else s;
               Apply(s, Fail(k, dbOk)) == s1.(matchers := [Busy(s.matchers[0].pair, Releasing)]))
    ensures Enabled(s, LetGo(k, dbOk)) ==>
              (var s1 := if dbOk then Unreserve(s, s.matchers[0].pair) else s;
               Apply(s, LetGo(k, dbOk)) == s1.(matchers := [Idle]))
  {
    hide ReleaseRows;
    assert s.matchers == [s.matchers[0]];
  }

  lemma RunNone(s: State)
    ensures Run(s, [], s)
  {
  }

  lemma {:induction false} RunAppend(s: State, steps: seq<Step>, mid: State, step: Step)
    requires Run(s, steps, mid) && Enabled(mid, step)
    ensures Run(s, steps + [step], Apply(mid, step))
    decreases |steps|
  {
    hide Apply, Enabled;
    if steps == [] {
      assert [step][1..] == [];
      assert Run(Apply(mid, step), [], Apply(mid, step));
    } else {
      RunAppend(Apply(s, steps[0]), steps[1..], mid, step);
      assert (steps + [step])[1..] == steps[1..] + [step];
    }
  }

  lemma {:induction false} RunConcat(s: State, first: seq<Step>, mid: State, second: seq<Step>, s': State)
    requires Run(s, first, mid) && Run(mid, second, s')
    ensures Run(s, first + second, s')
    decreases |first|
  {
    hide Apply, Enabled;
    if first == [] {
      assert first + second == second;
    } else {
      RunConcat(Apply(s, first[0]), first[1..], mid, second, s');
      assert (first + second)[1..] == first[1..] + second;
    }
  }

  lemma SendReply(s: State, transport: Transport)
    requires |s.matchers| == 1 && Enabled(s, Send(0, transport))
    ensures var (c, g, s') := (s.matchers[0].pair, s.matchers[0].stage, Apply(s, Send(0, transport)));
            var (executions, reply) := ChainResult(s.executions, c, g.units, g.fill, transport);
            s'.executions == executions
              && s'.matchers == [Busy(c, if ShouldFinalize(reply) then Recording(g.units, g.fill) else Failing)]
  {
    hide Refused;
    assert s.matchers == [s.matchers[0]];
  }

  lemma RecordOutcome(s: State, dbOk: bool)
    requires |s.matchers| == 1 && Enabled(s, Record(0, dbOk))
    ensures var (c, g, s') := (s.matchers[0].pair, s.matchers[0].stage, Apply(s, Record(0, dbOk)));
            var r := FinalizeTx(s.db, c.taker.orderId, c.maker.orderId, c.maker.limitPrice, g.fill);
            if dbOk && r.Ok? then s'.matchers == [Idle] && s'.db == r.value && s'.executions == s.executions
            else s' == s.(matchers := [Busy(c, Releasing)])
  {
    hide FinalizeTx, RemoveOne;
    assert s.matchers == [s.matchers[0]];
  }

  /** A tick that goes all the way: each of its four steps in turn. */
  function Swept(s: State, now: int): State { s.(db := s.db.(rows := ExpireRows(s.db.rows, now))) }

  lemma ExpireForm(s: State, now: int)
    ensures Apply(s, Expire(now)) == s.(db := s.db.(rows := ExpireRows(s.db.rows, now)))
  {
  }

  lemma CheckSubmits(s: State, c: Candidate, now: int, units: Units, fill: int)
    requires s.matchers == [Busy(c, Checking(now))] && Decide(c, now) == Submit(units, fill)
    ensures Enabled(s, Check(0)) && Apply(s, Check(0)) == s.(matchers := [Busy(c, Submitting(units.amount, fill))])
  {
    hide Decide;
  }

  lemma SendAccepted(s: State, c: Candidate, units: int, fill: int)
    requires s.matchers == [Busy(c, Submitting(units, fill))] && !Refused(s.executions, c, units)
    ensures var e := MatchOf(c, units, fill);
            && Enabled(s, Send(0, Delivered))
            && Apply(s, Send(0, Delivered)) == s.(executions := s.executions + [e], unrecorded := s.unrecorded + [e],
              matchers := [Busy(c, Recording(units, fill))])
  {
    SendForm(s, 0, Delivered);
    hide Refused, Apply;
  }

  lemma SendRefused(s: State, c: Candidate, units: int, fill: int)
    requires s.matchers == [Busy(c, Submitting(units, fill))] && Refused(s.executions, c, units)
    ensures Enabled(s, Send(0, Delivered))
            && Apply(s, Send(0, Delivered)) == s.(matchers := [Busy(c, Recording(units, fill))])
  {
    SendForm(s, 0, Delivered);
    hide Refused, Apply;
  }

  /** The chain carries the match out and the matcher does not hear of it. */
  lemma SendLost(s: State, c: Candidate, units: int, fill: int)
    requires s.matchers == [Busy(c, Submitting(units, fill))] && !Refused(s.executions, c, units)
    ensures var e := MatchOf(c, units, fill);
            && Enabled(s, Send(0, ReplyLost))
            && Apply(s, Send(0, ReplyLost)) == s.(executions := s.executions + [e], unrecorded := s.unrecorded + [e],
              matchers := [Busy(c, Failing)])
  {
    SendForm(s, 0, ReplyLost);
    hide Refused, Apply;
  }

  lemma FailThenLetGo(s: State, c: Candidate)
    requires s.matchers == [Busy(c, Failing)]
    ensures var s1 := Unreserve(s, c).(matchers := [Busy(c, Releasing)]);
            && Enabled(s, Fail(0, true)) && Apply(s, Fail(0, true)) == s1
            && Enabled(s1, LetGo(0, true)) && Apply(s1, LetGo(0, true)) == Unreserve(s1, c).(matchers := [Idle])
  {
    hide Unreserve;
    ReleaseForm(s, 0, true);
    ReleaseForm(Unreserve(s, c).(matchers := [Busy(c, Releasing)]), 0, true);
  }

  lemma RecordSucceeds(s: State, c: Candidate, units: int, fill: int)
    requires s.matchers == [Busy(c, Recording(units, fill))]
    requires FinalizeTx(s.db, c.taker.orderId, c.maker.orderId, c.maker.limitPrice, fill).Ok?
    ensures var e := MatchOf(c, units, fill);
            && Enabled(s, Record(0, true))
            && Apply(s, Record(0, true)) == s.(
                 db := FinalizeTx(s.db, c.taker.orderId, c.maker.orderId, c.maker.limitPrice, fill).value,
                 settled := s.settled + [e], unrecorded := RemoveOne(s.unrecorded, e), matchers := [Idle])
  {
    RecordForm(s, 0, true);
    RecordOutcome(s, true);
    hide FinalizeTx, RemoveOne, Apply;
  }

  lemma FourSteps(s: State, a: Step, s1: State, b: Step, s2: State, c: Step, s3: State, d: Step, s4: State)
    requires Enabled(s, a) && s1 == Apply(s, a) && Enabled(s1, b) && s2 == Apply(s1, b)
    requires Enabled(s2, c) && s3 == Apply(s2, c) && Enabled(s3, d) && s4 == Apply(s3, d)
    ensures Run(s, [a, b, c, d], s4)
  {
    hide Enabled, Apply, Run;
    RunNone(s);
    RunAppend(s, [], s, a);
    RunAppend(s, [] + [a], s1, b);
    RunAppend(s, [] + [a] + [b], s2, c);
    RunAppend(s, [] + [a] + [b] + [c], s3, d);
    assert [] + [a] + [b] + [c] + [d] == [a, b, c, d];
  }

  lemma FirstThen(s: State, first: Step, s1: State, rest: seq<Step>, s': State)
    requires Enabled(s, first) && Apply(s, first) == s1 && Run(s1, rest, s')
    ensures Run(s, [first] + rest, s')
  {
    hide Enabled, Apply;
    assert ([first] + rest)[0] == first && ([first] + rest)[1..] == rest;
  }

  lemma RunTail(s: State, step: Step, rest: seq<Step>, s': State)
    requires Run(s, [step] + rest, s')
    ensures Enabled(s, step) && Run(Apply(s, step), rest, s')
  {
    assert ([step] + rest)[0] == step && ([step] + rest)[1..] == rest;
    hide Enabled, Apply;
  }

  lemma MatchersStay(s: State, step: Step)
    requires Enabled(s, step)
    ensures |Apply(s, step).matchers| == |s.matchers|
  {
    hide IsHead, AcquireTx, FinalizeTx, Refused, Decide, ExpireRows, CancelTx, CreateTx, ReleaseRows;
  }

  lemma TwoSteps(s: State, a: Step, s1: State, b: Step, s2: State)
    requires Enabled(s, a) && s1 == Apply(s, a) && Enabled(s1, b) && s2 == Apply(s1, b)
    ensures Run(s, [a, b], s2)
  {
    hide Enabled, Apply, Run;
    RunNone(s);
    RunAppend(s, [], s, a);
    RunAppend(s, [] + [a], s1, b);
    assert [] + [a] + [b] == [a, b];
  }

  lemma ThreeSteps(s: State, a: Step, s1: State, b: Step, s2: State, c: Step, s3: State)
    requires Enabled(s, a) && s1 == Apply(s, a) && Enabled(s1, b) && s2 == Apply(s1, b)
    requires Enabled(s2, c) && s3 == Apply(s2, c)
    ensures Run(s, [a, b, c], s3)
  {
    hide Enabled, Apply, Run;
    RunNone(s);
    RunAppend(s, [], s, a);
    RunAppend(s, [] + [a], s1, b);
    RunAppend(s, [] + [a] + [b], s2, c);
    assert [] + [a] + [b] + [c] == [a, b, c];
  }
}

/**
 A write a client named: the row of one user and key in helpers/idempotency.py, and every caller that
 meets on it, each statement of a caller one event.
 */
module Idempotency {
  import opened Outcomes

  /** The window of a claim in seconds, past which another call may take the key. */
  const ABANDONED_AFTER := 300

  datatype Row = Row(id: nat, endpoint: nat, answer: Option<nat>, claimedAt: int)

  /** How a call ends: with the recorded answer, refused because another call holds the key, refused because the key named another endpoint, with its own failure, or with its process. */
  datatype Ending = Answered(answer: nat) | InFlight | Reused | Raised | Died

  /**
   A call arrives; misses on the first read; has its insert refused; holds the row it read; works under a claim; or has ended.
   */
  datatype Phase =
    | Arrived
    | Missed
    | Refused
    | Holding(id: nat, endpoint: nat, answer: Option<nat>)
    | Working(id: nat, claimedAt: int)
    | Ended(ending: Ending)

  datatype Caller = Caller(endpoint: nat, phase: Phase)

  /** The row, the next id the table gives, the clock, the callers, and every answer ever written. */
  datatype System = System(row: Option<Row>, nextId: nat, now: int, callers: map<nat, Caller>, recorded: seq<nat>)

  datatype Event =
    | Look(c: nat)
    | Insert(c: nat)
    | Reread(c: nat)
    | TakeOver(c: nat)
    | Settle(c: nat, answer: nat)
    | GiveBack(c: nat)
    | Crash(c: nat)
    | Tick(to: int)

  function At(s: System, c: nat, phase: Phase): System
    requires c in s.callers
  {
    s.(callers := s.callers[c := s.callers[c].(phase := phase)])
  }

  function Holds(r: Row): Phase {
    Holding(r.id, r.endpoint, r.answer)
  }

  /** Time may pass only as far as every call still working is inside its window. */
  ghost predicate MayTick(s: System, to: int) {
    s.now <= to && forall c <- s.callers :: s.callers[c].phase.Working? ==> s.callers[c].phase.claimedAt >= to - ABANDONED_AFTER
  }

  predicate Abandoned(r: Row, id: nat, now: int) {
    r.id == id && r.answer.None? && r.claimedAt < now - ABANDONED_AFTER
  }

  ghost function Apply(s: System, e: Event): System {
    if e.Tick? then (if MayTick(s, e.to) then s.(now := e.to) else s)
    else if e.c !in s.callers then s
    else
      var caller := s.callers[e.c];
      match (e, caller.phase)
      case (Look(c), Arrived) => At(s, c, if s.row.Some? then Holds(s.row.value) else Missed)
      case (Insert(c), Missed) =>
        if s.row.Some? then At(s, c, Refused)
        else
          At(s.(row := Some(Row(s.nextId, caller.endpoint, None, s.now)), nextId := s.nextId + 1), c, Working(s.nextId, s.now))
      case (Reread(c), Refused) => At(s, c, if s.row.Some? then Holds(s.row.value) else Ended(InFlight))
      case (TakeOver(c), Holding(id, endpoint, answer)) =>
        if endpoint != caller.endpoint then At(s, c, Ended(Reused))
        else if answer.Some? then At(s, c, Ended(Answered(answer.value)))
        else if s.row.Some? && Abandoned(s.row.value, id, s.now) then
          At(s.(row := Some(s.row.value.(claimedAt := s.now))), c, Working(id, s.now))
        else At(s, c, Ended(InFlight))
      case (Settle(c, answer), Working(id, _)) =>
        // The write names the row by its id alone; one that is gone is an error and nothing is recorded.
        if s.row.Some? && s.row.value.id == id then
          At(s.(row := Some(s.row.value.(answer := Some(answer))), recorded := s.recorded + [answer]), c, Ended(Answered(answer)))
        else At(s, c, Ended(Died))
      case (GiveBack(c), Working(id, _)) =>
        var row := if s.row.Some? && s.row.value.id == id && s.row.value.answer.None? then None else s.row;
        At(s.(row := row), c, Ended(Raised))
      case (Crash(c), phase) => if phase.Ended? then s else At(s, c, Ended(Died))
      case _ => s
  }

  ghost function Run(s: System, events: seq<Event>): System
    decreases |events|
  {
    if events == [] then s else Run(Apply(s, events[0]), events[1..])
  }

  // ---------------------------------------------------------------- what every run keeps

  ghost predicate CallerInv(s: System, v: Caller) {
    match v.phase
    case Holding(id, endpoint, answer) =>
      && id < s.nextId
      && (s.row.Some? && s.row.value.id == id ==> s.row.value.endpoint == endpoint)
      && (answer.Some? ==> s.row.Some? && s.row.value.id == id && s.row.value.answer == answer)
    case Working(id, claimedAt) =>
      && s.row.Some? && s.row.value.id == id && s.row.value.answer.None? && s.row.value.endpoint == v.endpoint
      && s.row.value.claimedAt == claimedAt && s.now - ABANDONED_AFTER <= claimedAt <= s.now
    case Ended(Answered(a)) => s.row.Some? && s.row.value.answer == Some(a) && s.row.value.endpoint == v.endpoint
    case _ => true
  }

  ghost predicate Inv(s: System) {
    && (s.row.Some? ==> s.row.value.id < s.nextId)
    && (forall c <- s.callers :: CallerInv(s, s.callers[c]))
    && (forall c, d :: c in s.callers && d in s.callers && s.callers[c].phase.Working? && s.callers[d].phase.Working? ==> c == d)
    && s.recorded == (if s.row.Some? && s.row.value.answer.Some? then [s.row.value.answer.value] else [])
  }

  ghost predicate Fresh(s: System) {
    s.row.None? && s.recorded == [] && forall c <- s.callers :: s.callers[c].phase == Arrived
  }

  /** An answered row is neither deleted nor overwritten. */
  ghost predicate KeepsAnswer(before: System, after: System) {
    before.row.Some? && before.row.value.answer.Some? ==> after.row == before.row
  }

  /** A caller that reads, is refused or ends, beside an untouched row. */
  lemma QuietKeepsInv(s: System, c: nat, phase: Phase)
    requires Inv(s) && c in s.callers && !phase.Working? && CallerInv(s, s.callers[c].(phase := phase))
    ensures Inv(At(s, c, phase))
  {
  }

  /** A caller that takes the key, new or abandoned, finds nobody working. */
  lemma ClaimKeepsInv(s: System, c: nat, row: Row, nextId: nat)
    requires Inv(s) && c in s.callers && row.answer.None? && row.endpoint == s.callers[c].endpoint && row.claimedAt == s.now
    requires (s.row.None? && row.id == s.nextId && nextId == s.nextId + 1)
          || (s.row.Some? && nextId == s.nextId && Abandoned(s.row.value, row.id, s.now) && row == s.row.value.(claimedAt := s.now))
    ensures Inv(At(s.(row := Some(row), nextId := nextId), c, Working(row.id, s.now)))
  {
  }

  /** The working caller settles, or gives the key back. */
  lemma CloseKeepsInv(s: System, c: nat, answer: Option<nat>)
    requires Inv(s) && c in s.callers && s.callers[c].phase.Working?
    ensures Inv(Apply(s, if answer.Some? then Settle(c, answer.value) else GiveBack(c)))
  {
  }

  lemma EventKeepsInv(s: System, e: Event)
    requires Inv(s)
    ensures Inv(Apply(s, e)) && KeepsAnswer(s, Apply(s, e))
    ensures Apply(s, e).callers.Keys == s.callers.Keys
  {
    if e.Tick? {
      assert Inv(Apply(s, e));
    } else if e.c in s.callers {
      var phase := s.callers[e.c].phase;
      assert CallerInv(s, s.callers[e.c]);
      var after := Apply(s, e);
      if e.Insert? && phase.Missed? && s.row.None? {
        ClaimKeepsInv(s, e.c, after.row.value, after.nextId);
      } else if e.TakeOver? && phase.Holding? && after.callers[e.c].phase.Working? {
        ClaimKeepsInv(s, e.c, after.row.value, after.nextId);
      } else if e.Settle? && phase.Working? {
        CloseKeepsInv(s, e.c, Some(e.answer));
      } else if e.GiveBack? && phase.Working? {
        CloseKeepsInv(s, e.c, None);
      } else if after != s {
        hide Inv;
        QuietKeepsInv(s, e.c, after.callers[e.c].phase);
      }
    }
  }

  lemma {:induction false} RunKeepsInv(s: System, events: seq<Event>)
    requires Inv(s)
    ensures Inv(Run(s, events)) && KeepsAnswer(s, Run(s, events))
    decreases |events|
  {
    hide Inv, Apply;
    if events != [] {
      EventKeepsInv(s, events[0]);
      RunKeepsInv(Apply(s, events[0]), events[1..]);
    }
  }

  lemma {:induction false} RunAppends(s: System, first: seq<Event>, rest: seq<Event>)
    ensures Run(s, first + rest) == Run(Run(s, first), rest)
    decreases |first|
  {
    hide Apply;
    if first == [] {
      assert first + rest == rest;
    } else {
      assert (first + rest)[1..] == first[1..] + rest;
      RunAppends(Apply(s, first[0]), first[1..], rest);
    }
  }

  ghost predicate Answers(s: System, c: nat) {
    c in s.callers && s.callers[c].phase.Ended? && s.callers[c].phase.ending.Answered?
  }

  ghost predicate Works(s: System, c: nat) {
    c in s.callers && s.callers[c].phase.Working?
  }

  /**
   Whatever calls meet on one fresh key, fail, give it back, die and take it over: at most one is working, at most one answer is ever recorded,
   the row as it is once answered stays so to the end, and every call that returns an answer returns that one.
   */
  lemma EveryRunAnswersOnce(s: System, events: seq<Event>, more: seq<Event>)
    requires Fresh(s)
    ensures var middle := Run(s, events);
            var after := Run(s, events + more);
            && KeepsAnswer(middle, after)
            && |after.recorded| <= 1
            && (forall c, d :: Works(after, c) && Works(after, d) ==> c == d)
            && (forall c :: Answers(after, c) ==> after.recorded == [after.callers[c].phase.ending.answer])
  {
    RunKeepsInv(s, events);
    RunKeepsInv(Run(s, events), more);
    RunAppends(s, events, more);
    var after := Run(s, events + more);
    forall c | Answers(after, c) ensures after.recorded == [after.callers[c].phase.ending.answer] {
      assert CallerInv(after, after.callers[c]);
    }
  }

  /**
   The key is never lost with the call that held it: once a failed call gave it back, or the window of a dead one passed, the next call of
   the same endpoint gets to work, and before that none does.
   */
  lemma NextCallWorksExactlyWhen(s: System, c: nat)
    requires Inv(s) && c in s.callers && s.callers[c].phase == Arrived
    ensures var after := Run(s, [Look(c), Insert(c), TakeOver(c)]);
            c in after.callers && (after.callers[c].phase.Working? <==>
              s.row.None? || (s.row.value.endpoint == s.callers[c].endpoint && Abandoned(s.row.value, s.row.value.id, s.now)))
  {
    AlonePhases(s, c);
    hide Apply, Inv;
    var events := [Look(c), Insert(c), TakeOver(c)];
    assert events[1..] == [Insert(c), TakeOver(c)];
    assert [Insert(c), TakeOver(c)][1..] == [TakeOver(c)] && [TakeOver(c)][1..] == [];
    var two := Apply(Apply(s, Look(c)), Insert(c));
    assert Run(s, events) == Run(two, [TakeOver(c)]);
    assert Run(two, [TakeOver(c)]) == Run(Apply(two, TakeOver(c)), []);
  }

  lemma AlonePhases(s: System, c: nat)
    requires c in s.callers && s.callers[c].phase == Arrived
    ensures var after := Apply(Apply(Apply(s, Look(c)), Insert(c)), TakeOver(c));
            c in after.callers && (after.callers[c].phase.Working? <==>
              s.row.None? || (s.row.value.endpoint == s.callers[c].endpoint && Abandoned(s.row.value, s.row.value.id, s.now)))
  {
    if s.row.Some? {
      assert Apply(Apply(s, Look(c)), Insert(c)) == At(s, c, Holds(s.row.value));
    }
  }

  /** A call that fails gives the key back with it: the row is gone, and the next call to arrive, of whatever endpoint, gets to work. */
  lemma FailureFreesTheKey(s: System, c: nat, d: nat)
    requires Inv(s) && c in s.callers && s.callers[c].phase.Working? && d in s.callers && s.callers[d].phase == Arrived
    ensures var freed := Apply(s, GiveBack(c));
            var after := Apply(Apply(freed, Look(d)), Insert(d));
            && freed.row == None && c in freed.callers && freed.callers[c].phase == Ended(Raised)
            && d in after.callers && after.callers[d].phase == Working(s.nextId, s.now)
            && after.row == Some(Row(s.nextId, s.callers[d].endpoint, None, s.now))
  {
    assert CallerInv(s, s.callers[c]);
    hide Inv;
  }

  /** A call that dies leaves the row as it is, and with it the key to whoever comes once its five minutes are over. */
  lemma DeathKeepsTheKey(s: System, c: nat, d: nat, to: int)
    requires Inv(s) && c in s.callers && s.callers[c].phase.Working? && d in s.callers && s.callers[d].phase == Arrived
    ensures var dead := Apply(s, Crash(c));
            && dead.row == s.row && s.row.Some? && c in dead.callers && dead.callers[c].phase == Ended(Died)
            && (to >= s.now ==>
                  var later := Apply(dead, Tick(to));
                  && later.now == to
                  && var after := Apply(Apply(Apply(later, Look(d)), Insert(d)), TakeOver(d));
                     d in after.callers &&
                     (after.callers[d].phase.Working? <==> s.row.value.endpoint == s.callers[d].endpoint && s.row.value.claimedAt < to - 300))
  {
    assert CallerInv(s, s.callers[c]);
    var dead := Apply(s, Crash(c));
    forall e <- dead.callers ensures !dead.callers[e].phase.Working? {
      assert e != c && s.callers[e].phase.Working? ==> e == c;
    }
    hide Inv;
    if to >= s.now {
      var later := Apply(dead, Tick(to));
      assert Apply(Apply(later, Look(d)), Insert(d)) == At(later, d, Holds(s.row.value));
    }
  }

  /** A call that answers leaves its answer in the row it worked under, for every other call to find. */
  lemma AnswerIsKept(s: System, c: nat, answer: nat)
    requires Inv(s) && c in s.callers && s.callers[c].phase.Working?
    ensures var after := Apply(s, Settle(c, answer));
            && c in after.callers && after.callers[c].phase == Ended(Answered(answer))
            && s.row.Some? && after.row == Some(s.row.value.(answer := Some(answer))) && after.recorded == [answer]
  {
    assert CallerInv(s, s.callers[c]);
  }

  // ---------------------------------------------------------------- one call, start to end

  /** What a call on its own does to the row: its events, with nobody else in between. */
  ghost function Alone(row: Option<Row>, nextId: nat, now: int, endpoint: nat, work: Option<nat>): (alone: System)
    ensures 0 in alone.callers
  {
    var s := System(row, nextId, now, map[0 := Caller(endpoint, Arrived)], []);
    var taken := Apply(Apply(Apply(s, Look(0)), Insert(0)), TakeOver(0));
    if work.Some? then Apply(taken, Settle(0, work.value)) else Apply(taken, GiveBack(0))
  }

  /** Whether a call on its own gets to work: on a free key, or on one of its endpoint nobody answered within five minutes. */
  predicate GetsToWork(row: Option<Row>, endpoint: nat, now: int) {
    row.None? || (row.value.endpoint == endpoint && row.value.answer.None? && row.value.claimedAt < now - 300)
  }

  /** How a call on its own ends and the row it leaves, case by case. */
  ghost predicate EndsAs(row: Option<Row>, nextId: nat, now: int, endpoint: nat, work: Option<nat>, after: Option<Row>, ending: Ending) {
    if GetsToWork(row, endpoint, now) then
      if work.None? then ending == Raised && after == None
      else
        && ending == Answered(work.value)
        && after == Some(Row(if row.Some? then row.value.id else nextId, endpoint, work, now))
    else
      && after == row
      && (ending == Reused <==> row.value.endpoint != endpoint)
      && (ending == InFlight <==> row.value.endpoint == endpoint && row.value.answer.None?)
      && (row.value.endpoint == endpoint && row.value.answer.Some? ==> ending == Answered(row.value.answer.value))
  }

  lemma AloneEndsAs(row: Option<Row>, nextId: nat, now: int, endpoint: nat, work: Option<nat>)
    ensures var alone := Alone(row, nextId, now, endpoint, work);
            alone.callers[0].phase.Ended? && EndsAs(row, nextId, now, endpoint, work, alone.row, alone.callers[0].phase.ending)
  {
    var s := System(row, nextId, now, map[0 := Caller(endpoint, Arrived)], []);
    if row.Some? {
      assert Apply(Apply(s, Look(0)), Insert(0)) == At(s, 0, Holds(row.value));
    } else {
      assert Apply(Apply(s, Look(0)), Insert(0)).callers[0].phase == Working(nextId, now);
    }
  }

  class ClientRequests {
    var rows: map<(nat, nat), Row>
    var nextId: nat

    ghost function RowOf(name: (nat, nat)): Option<Row>
      reads this
    {
      if name in rows then Some(rows[name]) else None
    }

    constructor ()
      ensures rows == map[]
    {
      rows, nextId := map[], 0;
    }

    /** Takes the key, or answers what it already carries, or says why neither. */
    method Claim(name: (nat, nat), endpoint: nat, now: int) returns (claimed: Result<nat, Ending>)
      modifies this
      ensures var s := System(old(RowOf(name)), old(nextId), now, map[0 := Caller(endpoint, Arrived)], []);
              var taken := Apply(Apply(Apply(s, Look(0)), Insert(0)), TakeOver(0));
              && RowOf(name) == taken.row && nextId == taken.nextId
              && (claimed.Success? ==> taken.callers[0].phase == Working(claimed.value, now))
              && (claimed.Failure? ==> taken.callers[0].phase == Ended(claimed.error))
      ensures rows - {name} == old(rows) - {name}
    {
      if name !in rows {
        var id := nextId;
        rows := rows[name := Row(id, endpoint, None, now)];
        nextId := nextId + 1;
        return Success(id);
      }
      var named := rows[name];
      if named.endpoint != endpoint {
        return Failure(Reused);
      }
      if named.answer.Some? {
        return Failure(Answered(named.answer.value));
      }
      if !(named.claimedAt < now - ABANDONED_AFTER) {
        return Failure(InFlight);
      }
      rows := rows[name := named.(claimedAt := now)];
      return Success(named.id);
    }

    /** One call from claim to answer; `work` is what the work answers, or nothing when it raises. */
    method Once(name: (nat, nat), endpoint: nat, now: int, work: Option<nat>) returns (ending: Ending)
      modifies this
      ensures var alone := Alone(old(RowOf(name)), old(nextId), now, endpoint, work);
              RowOf(name) == alone.row && nextId == alone.nextId && alone.callers[0].phase == Ended(ending)
      ensures EndsAs(old(RowOf(name)), old(nextId), now, endpoint, work, RowOf(name), ending)
      ensures name !in rows <==> ending == Raised
      ensures rows - {name} == old(rows) - {name}
    {
      AloneEndsAs(RowOf(name), nextId, now, endpoint, work);
      var claimed := Claim(name, endpoint, now);
      if claimed.Failure? {
        return claimed.error;
      }
      if work.None? {
        if rows[name].answer.None? {
          rows := rows - {name};
        }
        return Raised;
      }
      rows := rows[name := rows[name].(answer := work)];
      return Answered(work.value);
    }
  }

  predicate IsAnswered(row: Option<Row>, endpoint: nat, answer: nat) {
    row.Some? && row.value.endpoint == endpoint && row.value.answer == Some(answer)
  }

  lemma AnsweredLeavesItsRow(row: Option<Row>, nextId: nat, now: int, endpoint: nat, work: Option<nat>, answer: nat)
    requires Alone(row, nextId, now, endpoint, work).callers[0].phase == Ended(Answered(answer))
    ensures IsAnswered(Alone(row, nextId, now, endpoint, work).row, endpoint, answer)
  {
  }

  lemma AnsweredAnswers(row: Option<Row>, nextId: nat, now: int, endpoint: nat, work: Option<nat>, answer: nat)
    requires IsAnswered(row, endpoint, answer)
    ensures var alone := Alone(row, nextId, now, endpoint, work);
            alone.row == row && alone.callers[0].phase == Ended(Answered(answer))
  {
  }

  /** Sending a named write again, whatever it would have answered by then, returns what the first one did and leaves the row alone. */
  lemma SentAgainAnswersAlike(row: Option<Row>, nextId: nat, now: int, endpoint: nat, work: Option<nat>, answer: nat, later: int, again: Option<nat>)
    requires Alone(row, nextId, now, endpoint, work).callers[0].phase == Ended(Answered(answer))
    ensures var first := Alone(row, nextId, now, endpoint, work);
            var second := Alone(first.row, first.nextId, later, endpoint, again);
            second.row == first.row && second.callers[0].phase == first.callers[0].phase
  {
    hide Apply;
    var first := Alone(row, nextId, now, endpoint, work);
    AnsweredLeavesItsRow(row, nextId, now, endpoint, work, answer);
    hide Alone;
    AnsweredAnswers(first.row, first.nextId, later, endpoint, again, answer);
  }
}

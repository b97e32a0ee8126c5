/** What a restart makes of a paired run that is already over. */
module Restart {
  import opened Prelude
  import opened StableSort
  import opened Execution
  import opened Lifecycle
  import opened PairedRunner
  import opened I = Idempotency

  /** No event of the run is stamped later than its last one. */
  predicate EndsLast(events: seq<Event>) {
    forall i :: 0 <= i < |events| ==> events[i].at <= events[|events| - 1].at
  }

  /** Before its last event an execution is not over, since the table accepts nothing after that. */
  lemma OnlyLastIsTerminal(start: Paired, steps: seq<Step>, i: nat)
    requires IsRun(start, steps) && i < |steps| - 1
    ensures !Terminal(steps[i].result.state)
  {
    assert Accepted(start, steps, i + 1);
  }

  lemma LatestOfRun(start: Paired, steps: seq<Step>)
    requires IsRun(start, steps) && steps != [] && Terminal(EndOf(start, steps).state)
    ensures Outcome(Latest(Timestamp(), EntriesOf(steps))).None? <==> EndsLast(EventsIn(steps))
  {
    var entries, events := EntriesOf(steps), EventsIn(steps);
    var latest := Latest(Timestamp(), entries);
    LatestIsMember(entries);
    LatestIfNotOvertaken(entries);
    StuckLabels(EndOf(start, steps));
    var i :| 0 <= i < |entries| && entries[i] == latest;
    if EndsLast(events) {
      forall j | 0 <= j < |entries|
        ensures entries[j].timestamp <= entries[|entries| - 1].timestamp
      {
        assert events[j].at <= events[|events| - 1].at;
      }
    } else {
      var j :| 0 <= j < |events| && events[j].at > events[|events| - 1].at;
      assert entries[j].timestamp <= latest.timestamp;
      OnlyLastIsTerminal(start, steps, i);
      StuckLabels(steps[i].result);
    }
  }

  /** An earlier attempt under the same id left an entry later than everything this run logged. */
  ghost predicate Overshadowed(before: seq<StoredEvent>, events: seq<Event>) {
    before != [] && forall i :: 0 <= i < |events| ==> events[i].at < Latest(Timestamp(), before).timestamp
  }

  /**
   * After a restart an execution that is over stays out of the rebuilt map if and only if none of its
   * events is stamped later than its last one, whatever other executions logged in between. Only an
   * entry of an earlier attempt that is later than all of them decides instead.
   */
  lemma OverStaysOverIff(start: Paired, steps: seq<Step>, before: seq<StoredEvent>, log: seq<StoredEvent>)
    requires IsRun(start, steps) && steps != [] && Terminal(EndOf(start, steps).state)
    requires Mine(log, start.id) == before + EntriesOf(steps)
    ensures Lookup(Restored(log), start.id).None? <==>
      if Overshadowed(before, EventsIn(steps)) then Outcome(Latest(Timestamp(), before)).None?
        else EndsLast(EventsIn(steps))
  {
    RestoredLookup(log, start.id);
    LatestOfRun(start, steps);
    if before == [] {
      assert before + EntriesOf(steps) == EntriesOf(steps);
    } else {
      LatestAppend(Timestamp(), before, EntriesOf(steps));
      OvershadowedIff(before, steps);
    }
  }

  lemma OvershadowedIff(before: seq<StoredEvent>, steps: seq<Step>)
    requires before != [] && steps != []
    ensures Overshadowed(before, EventsIn(steps)) <==>
      Latest(Timestamp(), EntriesOf(steps)).timestamp < Latest(Timestamp(), before).timestamp
  {
    var entries, events := EntriesOf(steps), EventsIn(steps);
    LatestIsMember(entries);
    var i :| 0 <= i < |entries| && entries[i] == Latest(Timestamp(), entries);
    assert events[i].at == entries[i].timestamp;
    forall j | 0 <= j < |events|
      ensures events[j].at <= Latest(Timestamp(), entries).timestamp
    {
      assert entries[j].timestamp == events[j].at;
    }
  }

  // ------------------------------------------------------------------ the runner's own times

  /** The time of a run's last event. */
  function ClosesAt(exit: Exit, env: Environment): int {
    if exit.UnwindLeg? then env.unwoundAt else exit.at
  }

  /** Submission, acknowledgements, fill and start of the unwind are all stamped no later than the end. */
  predicate InTime(yes: LegAnswer, no: LegAnswer, now: int, exit: Exit, env: Environment) {
    var end := ClosesAt(exit, env);
    && now <= end && env.submitAt <= end
    && (yes.Answered? && no.Answered? ==> yes.at <= end && no.at <= end)
    && (exit.UnwindLeg? ==> exit.at <= end && env.unwindAt <= end)
  }

  predicate AllBy(events: seq<Event>, end: int) {
    forall i :: 0 <= i < |events| ==> events[i].at <= end
  }

  lemma AllByAppend(a: seq<Event>, b: seq<Event>, end: int)
    ensures AllBy(a + b, end) <==> AllBy(a, end) && AllBy(b, end)
  {
    if AllBy(a + b, end) {
      forall i | 0 <= i < |a|
        ensures a[i].at <= end
      {
        assert (a + b)[i] == a[i];
      }
      forall i | 0 <= i < |b|
        ensures b[i].at <= end
      {
        assert (a + b)[|a| + i] == b[i];
      }
    }
  }

  lemma ExitEventsBy(exit: Exit, env: Environment)
    ensures var events, end := ExitEvents(exit, env), ClosesAt(exit, env);
      events != [] && events[|events| - 1].at == end
      && (AllBy(events, end) <==> (exit.UnwindLeg? ==> exit.at <= end && env.unwindAt <= end))
  {
    var events, end := ExitEvents(exit, env), ClosesAt(exit, env);
    if exit.UnwindLeg? {
      assert events[0].at == events[1].at == exit.at && events[2].at == env.unwindAt;
    }
  }

  lemma FrontEventsBy(yes: LegAnswer, no: LegAnswer, ids: Ids, now: int, submitAt: int, end: int)
    ensures AllBy(SubmitEvents(now, submitAt), end) <==> now <= end && submitAt <= end
    ensures yes.Answered? && no.Answered? ==> (AllBy(AckEvents(yes, no, ids), end) <==> yes.at <= end && no.at <= end)
  {
    var a := SubmitEvents(now, submitAt);
    assert a[0].at == now && a[1].at == a[2].at == submitAt;
    if yes.Answered? && no.Answered? {
      var b := AckEvents(yes, no, ids);
      assert b[0].at == yes.at && b[1].at == no.at;
    }
  }

  /** The events of an attempt end last exactly when its times are in order. */
  lemma RunEndsLastIff(yes: LegAnswer, no: LegAnswer, yesRecord: LegRecord, noRecord: LegRecord, now: int, exit: Exit,
      env: Environment)
    ensures EndsLast(RunEvents(yes, no, yesRecord, noRecord, now, exit, env)) <==> InTime(yes, no, now, exit, env)
  {
    hide SubmitEvents, AckEvents, ExitEvents, IdsOf;
    var end := ClosesAt(exit, env);
    var both := yes.Answered? && no.Answered?;
    var ids := if both then IdsOf(yes, no, yesRecord, noRecord) else Ids(None, None);
    var acks := if both then AckEvents(yes, no, ids) else [];
    var front, close := SubmitEvents(now, env.submitAt) + acks, ExitEvents(exit, env);
    ExitEventsBy(exit, env);
    FrontEventsBy(yes, no, ids, now, env.submitAt, end);
    AllByAppend(SubmitEvents(now, env.submitAt), acks, end);
    AllByAppend(front, close, end);
    assert (front + close)[|front + close| - 1] == close[|close| - 1];
  }

  /**
   * An attempt, whatever its exit, comes back to life after a restart exactly when its submission, an
   * acknowledgement, its observed fill or the start of its unwind is stamped later than its end: fills
   * carry the exchange's time, everything else the local one.
   */
  lemma AttemptStaysOverIff(start: Paired, steps: seq<Step>, before: seq<StoredEvent>, log: seq<StoredEvent>,
      yes: LegAnswer, no: LegAnswer, yesRecord: LegRecord, noRecord: LegRecord, now: int, exit: Exit, env: Environment)
    requires IsRun(start, steps) && Terminal(EndOf(start, steps).state)
    requires Mine(log, start.id) == before + EntriesOf(steps) && !Overshadowed(before, EventsIn(steps))
    requires EventsIn(steps) == RunEvents(yes, no, yesRecord, noRecord, now, exit, env)
    ensures Lookup(Restored(log), start.id).None? <==> InTime(yes, no, now, exit, env)
  {
    hide RunEvents, InTime, EndsLast, Restored, Mine;
    assert steps != [] by {
      RunHasEvents(yes, no, yesRecord, noRecord, now, exit, env);
    }
    OverStaysOverIff(start, steps, before, log);
    RunEndsLastIff(yes, no, yesRecord, noRecord, now, exit, env);
  }

  lemma RunHasEvents(yes: LegAnswer, no: LegAnswer, yesRecord: LegRecord, noRecord: LegRecord, now: int, exit: Exit,
      env: Environment)
    ensures |RunEvents(yes, no, yesRecord, noRecord, now, exit, env)| >= 3
  {
    hide ExitEvents, AckEvents;
  }

  // ------------------------------------------------------------------ every such run exists

  lemma OneMore(start: Paired, steps: seq<Step>, event: Event) returns (more: seq<Step>)
    requires IsRun(start, steps) && !Terminal(EndOf(start, steps).state) && Allowed(EndOf(start, steps).state, event)
    ensures IsRun(start, more) && EventsIn(more) == EventsIn(steps) + [event]
    ensures EndOf(start, more) == Apply(EndOf(start, steps).(lastUpdated := event.at), event)
  {
    var next := Apply(EndOf(start, steps).(lastUpdated := event.at), event);
    RunExtends(start, steps, event, next);
    EventsPush(steps, Step(event, next));
    more := steps + [Step(event, next)];
  }

  lemma PlaySubmit(start: Paired, now: int, submitAt: int) returns (steps: seq<Step>)
    requires Fresh(start)
    ensures IsRun(start, steps) && EventsIn(steps) == SubmitEvents(now, submitAt)
    ensures EndOf(start, steps).state == BothPending && !EndOf(start, steps).yesAcked && !EndOf(start, steps).noAcked
    ensures !EndOf(start, steps).yesFilled && !EndOf(start, steps).noFilled
  {
    steps := [];
    NoEvents();
    hide IsRun, EventsIn, EndOf;
    StartsEmpty(start);
    steps := OneMore(start, steps, SubmitStarted(now));
    steps := OneMore(start, steps, SubmitYes(submitAt));
    steps := OneMore(start, steps, SubmitNo(submitAt));
  }

  lemma StartsEmpty(start: Paired)
    ensures IsRun(start, []) && EndOf(start, []) == start
  {
  }

  lemma PlayExit(start: Paired, steps: seq<Step>, exit: Exit, env: Environment) returns (more: seq<Step>)
    requires IsRun(start, steps)
    requires EndOf(start, steps).state == BothPending || EndOf(start, steps).state == BothAcked
    requires !EndOf(start, steps).yesFilled && !EndOf(start, steps).noFilled
    ensures IsRun(start, more) && EventsIn(more) == EventsIn(steps) + ExitEvents(exit, env)
    ensures Terminal(EndOf(start, more).state)
  {
    hide IsRun, EventsIn, EndOf;
    match exit {
      case Done(at) =>
        more := PlayFills(start, steps, at);
      case CancelBoth(reason, at) =>
        more := PlayCancel(start, steps, reason, at);
      case UnwindLeg(leg, _, at) =>
        more := OneMore(start, steps, if leg.Yes? then FillYes(at) else FillNo(at));
        more := OneMore(start, more, FillPart(at));
        more := PlayUnwind(start, more, env);
    }
  }

  lemma PlayCancel(start: Paired, steps: seq<Step>, reason: Reason, at: int) returns (more: seq<Step>)
    requires IsRun(start, steps) && Cancellable(EndOf(start, steps).state)
    ensures IsRun(start, more) && EventsIn(more) == EventsIn(steps) + [StartCancel(at), Event.Fail(at, reason)]
    ensures Terminal(EndOf(start, more).state)
  {
    hide IsRun, EventsIn, EndOf;
    more := OneMore(start, steps, StartCancel(at));
    more := OneMore(start, more, Event.Fail(at, reason));
  }

  lemma PlayFills(start: Paired, steps: seq<Step>, at: int) returns (more: seq<Step>)
    requires IsRun(start, steps)
    requires EndOf(start, steps).state == BothPending || EndOf(start, steps).state == BothAcked
    requires !EndOf(start, steps).yesFilled && !EndOf(start, steps).noFilled
    ensures IsRun(start, more) && EventsIn(more) == EventsIn(steps) + [FillYes(at), FillNo(at), Finish(at)]
    ensures Terminal(EndOf(start, more).state)
  {
    hide IsRun, EventsIn, EndOf;
    more := OneMore(start, steps, FillYes(at));
    more := OneMore(start, more, FillNo(at));
    more := OneMore(start, more, Finish(at));
  }

  lemma PlayUnwind(start: Paired, steps: seq<Step>, env: Environment) returns (more: seq<Step>)
    requires IsRun(start, steps) && EndOf(start, steps).state == PartialFill
    ensures IsRun(start, more) && EventsIn(more) == EventsIn(steps) + UnwindEvents(env)
    ensures Terminal(EndOf(start, more).state)
  {
    hide IsRun, EventsIn, EndOf, SaleWorked;
    more := OneMore(start, steps, StartUnwind(env.unwindAt));
    if SaleWorked(env) {
      more := OneMore(start, more, EndUnwind(env.unwoundAt));
      more := OneMore(start, more, Finish(env.unwoundAt));
    } else {
      more := OneMore(start, more, Event.Fail(env.unwoundAt, UnwindBroke));
    }
  }

  lemma PlayAcks(start: Paired, steps: seq<Step>, yes: LegAnswer, no: LegAnswer, ids: Ids) returns (more: seq<Step>)
    requires IsRun(start, steps) && yes.Answered? && no.Answered?
    requires EndOf(start, steps).state == BothPending && !EndOf(start, steps).yesAcked && !EndOf(start, steps).noAcked
    requires !EndOf(start, steps).yesFilled && !EndOf(start, steps).noFilled
    ensures IsRun(start, more) && EventsIn(more) == EventsIn(steps) + AckEvents(yes, no, ids)
    ensures EndOf(start, more).state == BothAcked && !EndOf(start, more).yesFilled && !EndOf(start, more).noFilled
  {
    hide IsRun, EventsIn, EndOf;
    more := OneMore(start, steps, AckYes(yes.at, WithOrderId(yes.response, ids.yes)));
    more := OneMore(start, more, AckNo(no.at, WithOrderId(no.response, ids.no)));
  }

  /** The table accepts the events of every attempt, from a new execution to its end. */
  lemma PlayRun(start: Paired, yes: LegAnswer, no: LegAnswer, yesRecord: LegRecord, noRecord: LegRecord, now: int,
      exit: Exit, env: Environment)
    returns (steps: seq<Step>)
    requires Fresh(start)
    ensures IsRun(start, steps) && Terminal(EndOf(start, steps).state)
    ensures EventsIn(steps) == RunEvents(yes, no, yesRecord, noRecord, now, exit, env)
  {
    hide IsRun, EventsIn, EndOf, SubmitEvents, AckEvents, ExitEvents, IdsOf;
    steps := PlaySubmit(start, now, env.submitAt);
    if yes.Answered? && no.Answered? {
      steps := PlayAcks(start, steps, yes, no, IdsOf(yes, no, yesRecord, noRecord));
    }
    steps := PlayExit(start, steps, exit, env);
  }

  lemma {:induction false} AllMine(events: seq<StoredEvent>, id: string)
    requires forall i :: 0 <= i < |events| ==> Of(id)(events[i])
    ensures Mine(events, id) == events
  {
    if events != [] {
      AllMine(events[..|events| - 1], id);
      assert events == events[..|events| - 1] + [events[|events| - 1]];
    }
  }

  lemma EntriesAreMine(start: Paired, steps: seq<Step>)
    requires Fresh(start) && IsRun(start, steps)
    ensures Mine(EntriesOf(steps), start.id) == EntriesOf(steps)
  {
    forall i | 0 <= i < |steps|
      ensures steps[i].result.id == start.id
    {
      RunsStayConsistent(start, steps, i + 1);
    }
    AllMine(EntriesOf(steps), start.id);
  }

  /** Over in the live map, alive in the rebuilt one. */
  ghost predicate Reappears(log: seq<StoredEvent>, id: string) {
    Lookup(Replay(log), id).None? && Lookup(Restored(log), id).Some?
  }

  /** A first attempt whose times are out of order reappears. */
  lemma OutOfTimeReappears(start: Paired, yes: LegAnswer, no: LegAnswer, yesRecord: LegRecord, noRecord: LegRecord,
      now: int, exit: Exit, env: Environment)
    returns (steps: seq<Step>)
    requires Fresh(start) && !InTime(yes, no, now, exit, env)
    ensures IsRun(start, steps) && EventsIn(steps) == RunEvents(yes, no, yesRecord, noRecord, now, exit, env)
    ensures Reappears(EntriesOf(steps), start.id)
  {
    hide RunEvents, InTime, Restored, IsRun, Mine, Fresh, Replay;
    steps := PlayRun(start, yes, no, yesRecord, noRecord, now, exit, env);
    EntriesAreMine(start, steps);
    RunHasEvents(yes, no, yesRecord, noRecord, now, exit, env);
    assert [] + EntriesOf(steps) == EntriesOf(steps);
    AttemptStaysOverIff(start, steps, [], EntriesOf(steps), yes, no, yesRecord, noRecord, now, exit, env);
    ReplayLookup(EntriesOf(steps), start.id);
    StuckLabels(EndOf(start, steps));
  }

  // ------------------------------------------------------------------ two such attempts

  function NewRecord(key: string, nonce: int): LegRecord {
    LegRecord(key, nonce, Pending, None, 0, 0)
  }

  function LiveOrder(id: string): Option<OrderResponse> {
    Some(OrderResponse(Some(true), Live, NoError, NoError, Some(id)))
  }

  /** Submitted at 0, acknowledged at 20; the exchange says what it filled at the given times. */
  function Venue(yesFill: FillOutcome, noFill: FillOutcome, soldAt: int): Environment {
    Environment(0, Answered(LiveOrder("y"), 20), Answered(LiveOrder("n"), 20), 20, 20, yesFill, noFill, 20,
      0.4, soldAt, UnwindAnswered(LiveOrder("u")), soldAt, [], [], [], [])
  }

  const PATIENT: PairedRunner.Limits := PairedRunner.Limits(100, 100, 100, true)

  /** Both fills were stamped at 10, before the answers arrived: the submitted attempt reappears. */
  lemma LateAckReappears(start: Paired) returns (steps: seq<Step>)
    requires Fresh(start)
    ensures var full := FillOutcome(5.0, true, false, 10); var env := Venue(full, full, 30);
      var exit := ExitOf(env.yesAnswer, env.noAnswer, NewRecord("y", 1), NewRecord("n", 2), PATIENT, env, 5.0);
      exit == Done(10) && IsRun(start, steps) && Reappears(EntriesOf(steps), start.id)
      && EventsIn(steps) == RunEvents(env.yesAnswer, env.noAnswer, NewRecord("y", 1), NewRecord("n", 2), 0, exit, env)
  {
    var full := FillOutcome(5.0, true, false, 10);
    var env := Venue(full, full, 30);
    steps := OutOfTimeReappears(start, env.yesAnswer, env.noAnswer, NewRecord("y", 1), NewRecord("n", 2), 0, Done(10),
      env);
  }

  /**
   * The exchange's clock says 50 for the one leg that filled, its sale ended at local time 40: the failed
   * attempt reappears.
   */
  lemma LateFillReappears(start: Paired) returns (steps: seq<Step>)
    requires Fresh(start)
    ensures var env := Venue(FillOutcome(5.0, true, false, 50), FillOutcome(0.0, false, true, 30), 40);
      var exit := ExitOf(env.yesAnswer, env.noAnswer, NewRecord("y", 1), NewRecord("n", 2), PATIENT, env, 5.0);
      exit == UnwindLeg(Yes, 5.0, 50) && IsRun(start, steps) && Reappears(EntriesOf(steps), start.id)
      && EventsIn(steps) == RunEvents(env.yesAnswer, env.noAnswer, NewRecord("y", 1), NewRecord("n", 2), 0, exit, env)
  {
    var env := Venue(FillOutcome(5.0, true, false, 50), FillOutcome(0.0, false, true, 30), 40);
    steps := OutOfTimeReappears(start, env.yesAnswer, env.noAnswer, NewRecord("y", 1), NewRecord("n", 2), 0,
      UnwindLeg(Yes, 5.0, 50), env);
  }
}

/** The transition table of one paired YES/NO execution, and what every run of it keeps. */
module Execution {
  import opened Prelude

  datatype Label =
    | Idle | Submitting
    | YesPending | NoPending | BothPending
    | YesAcked | NoAcked | BothAcked
    | YesFilled | NoFilled | BothFilled
    | PartialFill | Unwinding | UnwindComplete | UnwindFailed
    | Cancelling | Cancelled
    | Failed | TimedOut | Complete

  datatype Action = Submit | AwaitAck | AwaitFill | Cancel | Unwind | Finalize | NoAction

  /** `Delayed` stands for DELAYED in any letter case, `Refused` for exactly "rejected". */
  datatype ResponseStatus = NoStatus | Live | Delayed | Refused | OtherStatus(text: string)

  /** An error text of a response: absent or empty, "ORDER_DELAYED", or any other. */
  datatype ErrorText = NoError | OrderDelayedError | OtherError(text: string)

  datatype OrderResponse = OrderResponse(
    success: Option<bool>, status: ResponseStatus, errorMsg: ErrorText, error: ErrorText, orderId: Option<string>)

  /** The reasons an attempt or an execution can fail with. */
  datatype Reason =
    | OrderTimeout | OrderFailed | OrderDelayed | OrderRejected | LegSkewExceeded
    | PartiallyFilled | UnwindBroke | TimedOutIn(phase: string)

  datatype Leg = Yes | No

  /** What the execution is about; no event changes it. */
  datatype Terms = Terms(
    opportunityId: string, marketId: string, yesTokenId: string, noTokenId: string,
    size: real, yesPrice: real, noPrice: real)

  datatype Paired = Paired(
    id: string, terms: Terms, state: Label, createdAt: int, lastUpdated: int,
    yesSubmitted: bool, noSubmitted: bool, yesAcked: bool, noAcked: bool, yesFilled: bool, noFilled: bool,
    yesOrder: Option<OrderResponse>, noOrder: Option<OrderResponse>, error: Option<Reason>)

  datatype Event =
    | SubmitStarted(at: int)
    | SubmitYes(at: int)
    | SubmitNo(at: int)
    | AckYes(at: int, order: Option<OrderResponse>)
    | AckNo(at: int, order: Option<OrderResponse>)
    | FillYes(at: int)
    | FillNo(at: int)
    | FillPart(at: int)
    | StartUnwind(at: int)
    | EndUnwind(at: int)
    | BreakUnwind(at: int, cause: Option<Reason>)
    | StartCancel(at: int)
    | EndCancel(at: int)
    | Fail(at: int, reason: Reason)
    | Expire(at: int, phase: Option<Reason>)
    | Finish(at: int)

  predicate Terminal(s: Label) {
    s.Failed? || s.TimedOut? || s.Complete?
  }

  predicate SubmitPending(s: Label) {
    s.Idle? || s.Submitting? || s.YesPending? || s.NoPending? || s.BothPending?
  }

  predicate Ackable(s: Label) {
    s.YesPending? || s.NoPending? || s.BothPending? || s.YesAcked? || s.NoAcked? || s.BothAcked?
  }

  predicate Fillable(s: Label) {
    Ackable(s) || s.YesFilled? || s.NoFilled?
  }

  predicate Cancellable(s: Label) {
    s.Submitting? || Fillable(s) || s.PartialFill?
  }

  predicate Failable(s: Label) {
    Cancellable(s) || s.Unwinding? || s.Cancelling?
  }

  predicate Finalizable(s: Label) {
    s.BothFilled? || s.UnwindComplete? || s.Cancelled?
  }

  function Initial(id: string, terms: Terms, createdAt: int): Paired {
    Paired(id, terms, Idle, createdAt, createdAt, false, false, false, false, false, false, None, None, None)
  }

  predicate Allowed(s: Label, event: Event) {
    match event
    case SubmitStarted(_) => s.Idle?
    case SubmitYes(_) => SubmitPending(s)
    case SubmitNo(_) => SubmitPending(s)
    case AckYes(_, _) => Ackable(s)
    case AckNo(_, _) => Ackable(s)
    case FillYes(_) => Fillable(s)
    case FillNo(_) => Fillable(s)
    case FillPart(_) => s.YesFilled? || s.NoFilled? || s.BothAcked?
    case StartUnwind(_) => s.PartialFill?
    case EndUnwind(_) => s.Unwinding?
    case BreakUnwind(_, _) => s.Unwinding?
    case StartCancel(_) => Cancellable(s)
    case EndCancel(_) => s.Cancelling?
    case Fail(_, _) => Failable(s)
    case Expire(_, _) => Failable(s)
    case Finish(_) => Finalizable(s)
  }

  function Apply(e: Paired, event: Event): (next: Paired)
    ensures next.id == e.id && next.terms == e.terms && next.createdAt == e.createdAt
      && next.lastUpdated == e.lastUpdated
  {
    match event
    case SubmitStarted(_) => e.(state := Submitting)
    case SubmitYes(_) => e.(yesSubmitted := true, state := if e.noSubmitted then BothPending else YesPending)
    case SubmitNo(_) => e.(noSubmitted := true, state := if e.yesSubmitted then BothPending else NoPending)
    case AckYes(_, order) =>
      e.(yesAcked := true, yesOrder := order, state := if e.noAcked then BothAcked else YesAcked)
    case AckNo(_, order) =>
      e.(noAcked := true, noOrder := order, state := if e.yesAcked then BothAcked else NoAcked)
    case FillYes(_) => e.(yesFilled := true, state := if e.noFilled then BothFilled else YesFilled)
    case FillNo(_) => e.(noFilled := true, state := if e.yesFilled then BothFilled else NoFilled)
    case FillPart(_) => e.(state := PartialFill)
    case StartUnwind(_) => e.(state := Unwinding)
    case EndUnwind(_) => e.(state := UnwindComplete)
    case BreakUnwind(_, cause) => e.(state := UnwindFailed, error := Some(cause.GetOr(UnwindBroke)))
    case StartCancel(_) => e.(state := Cancelling)
    case EndCancel(_) => e.(state := Cancelled)
    case Fail(_, reason) => e.(state := Failed, error := Some(reason))
    case Expire(_, phase) => e.(state := TimedOut, error := Some(phase.GetOr(OrderTimeout)))
    case Finish(_) => e.(state := Complete)
  }

  function Transition(current: Paired, event: Event): Result<Paired> {
    if Terminal(current.state) then Failure("Invalid transition from terminal state")
    else if !Allowed(current.state, event) then Failure("Invalid transition")
    else Success(Apply(current.(lastUpdated := event.at), event))
  }

  function RequiredAction(s: Label): Action {
    match s
    case Idle => Submit
    case Submitting | YesPending | NoPending | BothPending => AwaitAck
    case YesAcked | NoAcked | BothAcked | YesFilled | NoFilled => AwaitFill
    case PartialFill | Unwinding => Unwind
    case Cancelling => Cancel
    case BothFilled | UnwindComplete | UnwindFailed | Cancelled => Finalize
    case Failed | TimedOut | Complete => NoAction
  }

  /** One accepted event and the state it led to. */
  datatype Step = Step(event: Event, result: Paired)

  function StateAt(start: Paired, steps: seq<Step>, i: nat): Paired
    requires i <= |steps|
  {
    if i == 0 then start else steps[i - 1].result
  }

  function EndOf(start: Paired, steps: seq<Step>): Paired {
    StateAt(start, steps, |steps|)
  }

  predicate Accepted(start: Paired, steps: seq<Step>, i: nat)
    requires i < |steps|
  {
    Transition(StateAt(start, steps, i), steps[i].event) == Success(steps[i].result)
  }

  /** `steps` is a run from `start`: the table accepts every event in turn. */
  ghost predicate IsRun(start: Paired, steps: seq<Step>) {
    forall i: nat :: i < |steps| ==> Accepted(start, steps, i)
  }

  ghost predicate Avoids(steps: seq<Step>, avoided: Label) {
    forall i :: 0 <= i < |steps| ==> steps[i].result.state != avoided
  }

  ghost predicate Fresh(e: Paired) {
    e == Initial(e.id, e.terms, e.createdAt)
  }

  /** What the label says about the six flags. */
  predicate Consistent(e: Paired) {
    var sent := e.yesSubmitted || e.noSubmitted;
    var unacked := !e.yesAcked && !e.noAcked;
    var unfilled := !e.yesFilled && !e.noFilled;
    var both := e.yesFilled && e.noFilled;
    match e.state
    case Idle | Submitting => !sent && unacked && unfilled
    case YesPending => e.yesSubmitted && !e.noSubmitted && unacked && unfilled
    case NoPending => !e.yesSubmitted && e.noSubmitted && unacked && unfilled
    case BothPending => e.yesSubmitted && e.noSubmitted && unacked && unfilled
    case YesAcked => sent && e.yesAcked && !e.noAcked && unfilled
    case NoAcked => sent && !e.yesAcked && e.noAcked && unfilled
    case BothAcked => sent && e.yesAcked && e.noAcked && unfilled
    case YesFilled => sent && e.yesFilled && !e.noFilled
    case NoFilled => sent && !e.yesFilled && e.noFilled
    case BothFilled => sent && both
    case PartialFill | Unwinding | UnwindComplete | UnwindFailed =>
      sent && !both && (unfilled ==> e.yesAcked && e.noAcked)
    case Cancelling | Cancelled | Failed | TimedOut => !both && (!sent ==> unacked && unfilled)
    case Complete => !sent ==> unacked && unfilled
  }

  function Rank(s: Label): nat {
    match s
    case Idle => 0
    case Submitting => 1
    case YesPending | NoPending => 2
    case BothPending => 3
    case YesAcked | NoAcked => 4
    case BothAcked => 5
    case YesFilled | NoFilled => 6
    case BothFilled => 7
    case PartialFill => 8
    case Unwinding => 9
    case UnwindComplete | UnwindFailed => 10
    case Cancelling => 11
    case Cancelled => 12
    case Failed | TimedOut | Complete => 13
  }

  /** What one accepted event keeps: labels agree with flags, ranks only grow, fills and identity stay. */
  predicate Kept(e: Paired, next: Paired) {
    && Consistent(next)
    && (next.state != e.state ==> Rank(e.state) < Rank(next.state))
    && (e.yesFilled ==> next.yesFilled) && (e.noFilled ==> next.noFilled)
    && (next.yesFilled && next.noFilled ==> next.state == BothFilled || (e.yesFilled && e.noFilled))
    && next.id == e.id && next.terms == e.terms && next.createdAt == e.createdAt
  }

  predicate Submits(event: Event) {
    event.SubmitStarted? || event.SubmitYes? || event.SubmitNo?
  }

  predicate Acks(event: Event) {
    event.AckYes? || event.AckNo?
  }

  predicate Fills(event: Event) {
    event.FillYes? || event.FillNo? || event.FillPart?
  }

  lemma SubmitKeeps(e: Paired, event: Event)
    requires Consistent(e) && Submits(event) && Transition(e, event).Success?
    ensures Kept(e, Transition(e, event).value)
  {
  }

  lemma AckKeeps(e: Paired, event: Event)
    requires Consistent(e) && Acks(event) && Transition(e, event).Success?
    ensures Kept(e, Transition(e, event).value)
  {
  }

  lemma FillKeeps(e: Paired, event: Event)
    requires Consistent(e) && Fills(event) && Transition(e, event).Success?
    ensures Kept(e, Transition(e, event).value)
  {
  }

  lemma CancelKeeps(e: Paired, event: Event)
    requires Consistent(e) && (event.StartCancel? || event.EndCancel?) && Transition(e, event).Success?
    ensures Kept(e, Transition(e, event).value)
  {
  }

  lemma FailKeeps(e: Paired, event: Event)
    requires Consistent(e) && (event.Fail? || event.Expire?) && Transition(e, event).Success?
    ensures Kept(e, Transition(e, event).value)
  {
  }

  lemma UnwindKeeps(e: Paired, event: Event)
    requires Consistent(e) && Transition(e, event).Success?
    requires event.StartUnwind? || event.EndUnwind? || event.BreakUnwind?
    ensures Kept(e, Transition(e, event).value)
  {
  }

  lemma FinishKeeps(e: Paired, event: Event)
    requires Consistent(e) && Transition(e, event).Success? && event.Finish?
    ensures Kept(e, Transition(e, event).value)
  {
  }

  lemma StepKeepsConsistency(e: Paired, event: Event)
    requires Consistent(e) && Transition(e, event).Success?
    ensures Kept(e, Transition(e, event).value)
  {
    hide Transition, Consistent, Kept;
    if Submits(event) {
      SubmitKeeps(e, event);
    } else if Acks(event) {
      AckKeeps(e, event);
    } else if Fills(event) {
      FillKeeps(e, event);
    } else if event.StartCancel? || event.EndCancel? {
      CancelKeeps(e, event);
    } else if event.Fail? || event.Expire? {
      FailKeeps(e, event);
    } else if event.Finish? {
      FinishKeeps(e, event);
    } else {
      UnwindKeeps(e, event);
    }
  }

  /** Over every run from a new execution, labels and flags agree and identity never changes. */
  lemma {:induction false} RunsStayConsistent(start: Paired, steps: seq<Step>, i: nat)
    requires Fresh(start) && IsRun(start, steps) && i <= |steps|
    ensures Consistent(StateAt(start, steps, i))
    ensures StateAt(start, steps, i).id == start.id && StateAt(start, steps, i).terms == start.terms
  {
    if i > 0 {
      RunsStayConsistent(start, steps, i - 1);
      assert Accepted(start, steps, i - 1);
      StepKeepsConsistency(StateAt(start, steps, i - 1), steps[i - 1].event);
    }
  }

  /** Some run from a new execution ends in this state. */
  ghost predicate Reachable(e: Paired) {
    exists start, steps :: Fresh(start) && IsRun(start, steps) && EndOf(start, steps) == e
  }

  /** The same label and the same six flags. */
  predicate LooksLike(a: Paired, b: Paired) {
    && a.state == b.state
    && a.yesSubmitted == b.yesSubmitted && a.noSubmitted == b.noSubmitted
    && a.yesAcked == b.yesAcked && a.noAcked == b.noAcked
    && a.yesFilled == b.yesFilled && a.noFilled == b.noFilled
  }

  lemma Go(e: Paired, event: Event) returns (next: Paired)
    requires Reachable(e) && !Terminal(e.state) && Allowed(e.state, event)
    ensures next == Apply(e.(lastUpdated := event.at), event) && Reachable(next)
  {
    var start, steps :| Fresh(start) && IsRun(start, steps) && EndOf(start, steps) == e;
    next := Apply(e.(lastUpdated := event.at), event);
    var more := steps + [Step(event, next)];
    forall i: nat | i < |more|
      ensures Accepted(start, more, i)
    {
      assert StateAt(start, more, i) == StateAt(start, steps, i);
      assert i < |steps| ==> Accepted(start, steps, i);
    }
    assert EndOf(start, more) == next;
  }

  lemma ReachNew(e: Paired) returns (r: Paired)
    ensures Reachable(r) && r == Initial(e.id, e.terms, 0)
  {
    r := Initial(e.id, e.terms, 0);
    assert Fresh(r) && IsRun(r, []) && EndOf(r, []) == r;
  }

  /** Any legs submitted, then any acknowledgements. */
  lemma ReachAcks(e: Paired) returns (r: Paired)
    requires !e.state.Idle? && (e.yesSubmitted || e.noSubmitted || (!e.yesAcked && !e.noAcked))
    ensures Reachable(r) && LooksLike(r, e.(state := r.state, yesFilled := false, noFilled := false)) && Consistent(r)
    ensures r.state.Submitting? || r.state.YesPending? || r.state.NoPending? || r.state.BothPending?
      || r.state.YesAcked? || r.state.NoAcked? || r.state.BothAcked?
  {
    hide Reachable;
    r := ReachNew(e);
    r := Go(r, SubmitStarted(0));
    if e.yesSubmitted {
      r := Go(r, SubmitYes(0));
    }
    if e.noSubmitted {
      r := Go(r, SubmitNo(0));
    }
    if e.yesAcked {
      r := Go(r, AckYes(0, None));
    }
    if e.noAcked {
      r := Go(r, AckNo(0, None));
    }
  }

  lemma ReachYesFill(e: Paired) returns (r: Paired)
    requires Consistent(e) && !e.state.Idle?
    ensures Reachable(r) && LooksLike(r, e.(state := r.state, noFilled := false)) && Consistent(r)
    ensures r.state.Submitting? || Fillable(r.state)
  {
    r := ReachAcks(e);
    hide Reachable;
    if e.yesFilled {
      r := Go(r, FillYes(0));
    }
  }

  lemma ReachFills(e: Paired) returns (r: Paired)
    requires Consistent(e) && !e.state.Idle?
    ensures Reachable(r) && LooksLike(r, e.(state := r.state)) && Consistent(r)
    ensures r.state.Submitting? || Fillable(r.state) || r.state.BothFilled?
  {
    r := ReachYesFill(e);
    hide Reachable;
    if e.noFilled {
      r := Go(r, FillNo(0));
    }
  }

  lemma ReachUnwind(e: Paired, from: Paired) returns (r: Paired)
    requires Consistent(e) && LooksLike(from, e.(state := from.state)) && Reachable(from) && Consistent(from)
    requires e.state.PartialFill? || e.state.Unwinding? || e.state.UnwindComplete? || e.state.UnwindFailed?
    requires from.state.Submitting? || Fillable(from.state) || from.state.BothFilled?
    ensures Reachable(r) && LooksLike(r, e)
  {
    hide Reachable;
    r := Go(from, FillPart(0));
    if !e.state.PartialFill? {
      r := Go(r, StartUnwind(0));
    }
    if e.state.UnwindComplete? {
      r := Go(r, EndUnwind(0));
    } else if e.state.UnwindFailed? {
      r := Go(r, BreakUnwind(0, None));
    }
  }

  lemma ReachFailed(e: Paired, from: Paired) returns (r: Paired)
    requires Consistent(e) && LooksLike(from, e.(state := from.state)) && Reachable(from) && Consistent(from)
    requires e.state.Failed? || e.state.TimedOut?
    requires from.state.Submitting? || Fillable(from.state) || from.state.BothFilled?
    ensures Reachable(r) && LooksLike(r, e)
  {
    hide Reachable;
    r := Go(from, if e.state.Failed? then Fail(0, OrderFailed) else Expire(0, None));
  }

  lemma ReachEnd(e: Paired, from: Paired) returns (r: Paired)
    requires Consistent(e) && LooksLike(from, e.(state := from.state)) && Reachable(from) && Consistent(from)
    requires e.state.Cancelling? || e.state.Cancelled? || e.state.Complete?
    requires from.state.Submitting? || Fillable(from.state) || from.state.BothFilled?
    ensures Reachable(r) && LooksLike(r, e)
  {
    hide Reachable;
    if from.state.BothFilled? {
      r := Go(from, Finish(0));
    } else {
      r := Go(from, StartCancel(0));
      if !e.state.Cancelling? {
        r := Go(r, EndCancel(0));
      }
      if e.state.Complete? {
        r := Go(r, Finish(0));
      }
    }
  }

  lemma ConsistentIsReached(e: Paired) returns (r: Paired)
    requires Consistent(e)
    ensures Reachable(r) && LooksLike(r, e)
  {
    hide Reachable;
    if e.state.Idle? {
      r := ReachNew(e);
    } else {
      r := ReachFills(e);
      if e.state.PartialFill? || e.state.Unwinding? || e.state.UnwindComplete? || e.state.UnwindFailed? {
        r := ReachUnwind(e, r);
      } else if e.state.Failed? || e.state.TimedOut? {
        r := ReachFailed(e, r);
      } else if e.state.Cancelling? || e.state.Cancelled? || e.state.Complete? {
        r := ReachEnd(e, r);
      }
    }
  }

  lemma LooksConsistent(a: Paired, b: Paired)
    requires LooksLike(a, b)
    ensures Consistent(a) <==> Consistent(b)
  {
  }

  /** The label and flags that runs reach are exactly the consistent ones. */
  lemma ReachedIff(e: Paired)
    ensures Consistent(e) <==> exists r :: Reachable(r) && LooksLike(r, e)
  {
    hide Consistent, LooksLike, IsRun, Fresh;
    if Consistent(e) {
      var r := ConsistentIsReached(e);
    }
    if r :| Reachable(r) && LooksLike(r, e) {
      var start, steps :| Fresh(start) && IsRun(start, steps) && EndOf(start, steps) == r;
      RunsStayConsistent(start, steps, |steps|);
      LooksConsistent(r, e);
    }
  }

  lemma {:induction false} RanksGrow(start: Paired, steps: seq<Step>, i: nat, j: nat)
    requires Fresh(start) && IsRun(start, steps) && i <= j <= |steps|
    ensures var a, b := StateAt(start, steps, i), StateAt(start, steps, j);
      a.state == b.state || Rank(a.state) < Rank(b.state)
    decreases j
  {
    if i < j {
      RanksGrow(start, steps, i, j - 1);
      RunsStayConsistent(start, steps, j - 1);
      assert Accepted(start, steps, j - 1);
      StepKeepsConsistency(StateAt(start, steps, j - 1), steps[j - 1].event);
    }
  }

  /** A label once left is never entered again. */
  lemma LabelsAreNeverReentered(start: Paired, steps: seq<Step>, i: nat, j: nat, k: nat)
    requires Fresh(start) && IsRun(start, steps) && i <= j <= k <= |steps|
    requires StateAt(start, steps, i).state != StateAt(start, steps, j).state
    ensures StateAt(start, steps, i).state != StateAt(start, steps, k).state
  {
    RanksGrow(start, steps, i, j);
    RanksGrow(start, steps, j, k);
  }

  /** Both legs end up filled exactly when the run passed through `BothFilled`. */
  lemma {:induction false} BothFlagsIffBothFilled(start: Paired, steps: seq<Step>)
    requires Fresh(start) && IsRun(start, steps)
    ensures EndOf(start, steps).yesFilled && EndOf(start, steps).noFilled
      <==> exists i :: 0 <= i <= |steps| && StateAt(start, steps, i).state == BothFilled
  {
    if steps != [] {
      var n := |steps| - 1;
      var front := steps[..n];
      forall i | 0 <= i <= n
        ensures StateAt(start, front, i) == StateAt(start, steps, i)
      {
      }
      forall i: nat | i < n
        ensures Accepted(start, front, i)
      {
        assert Accepted(start, steps, i);
      }
      BothFlagsIffBothFilled(start, front);
      RunsStayConsistent(start, steps, n);
      RunsStayConsistent(start, steps, n + 1);
      assert Accepted(start, steps, n);
      StepKeepsConsistency(StateAt(start, steps, n), steps[n].event);
      assert EndOf(start, front) == StateAt(start, steps, n);
      if StateAt(start, steps, n).yesFilled && StateAt(start, steps, n).noFilled {
        var i :| 0 <= i <= n && StateAt(start, front, i).state == BothFilled;
        assert StateAt(start, steps, i).state == BothFilled;
      } else if EndOf(start, steps).yesFilled && EndOf(start, steps).noFilled {
        assert StateAt(start, steps, n + 1).state == BothFilled;
      }
      if i :| 0 <= i <= |steps| && StateAt(start, steps, i).state == BothFilled && i <= n {
        assert StateAt(start, front, i).state == BothFilled;
      }
    }
  }

  /** No event is accepted exactly in the three terminal labels and after a broken unwind. */
  lemma StuckLabels(e: Paired)
    ensures (forall event :: Transition(e, event).Failure?) <==> Terminal(e.state) || e.state.UnwindFailed?
    ensures RequiredAction(e.state) == NoAction <==> Terminal(e.state)
  {
    if !Terminal(e.state) && !e.state.UnwindFailed? {
      var accepted: Event :=
        if e.state == Idle then SubmitStarted(0)
        else if Finalizable(e.state) then Finish(0)
        else Fail(0, OrderFailed);
      assert Transition(e, accepted).Success?;
    }
  }
}

/**
 * The paired submit/ack/fill protocol with its failure, cancel and unwind exits. Everything the
 * venue, the clock and the other executions may do is a field of `Environment`.
 */
module PairedRunner {
  import opened Prelude
  import opened StableSort
  import opened Execution
  import opened Lifecycle
  import opened Idempotency

  type Others = seq<(Paired, Event)>

  /** How one submission settles: a response (which may be empty), a rejection, or a timeout. */
  datatype LegAnswer =
    | Answered(response: Option<OrderResponse>, at: int)
    | Rejected(message: string)
    | OutOfTime(phase: string)

  datatype FillOutcome = FillOutcome(sizeMatched: real, fullyFilled: bool, timedOut: bool, observedAt: int)

  datatype UnwindAnswer = UnwindAnswered(response: Option<OrderResponse>) | UnwindThrew

  datatype Environment = Environment(
    submitAt: int,
    yesAnswer: LegAnswer, noAnswer: LegAnswer, settledAt: int,
    checkAt: int, yesOutcome: FillOutcome, noOutcome: FillOutcome, finishAt: int,
    unwindPrice: real, unwindAt: int, unwindAnswer: UnwindAnswer, unwoundAt: int,
    whileSubmitting: Others, whileFilling: Others, whileCancelling: Others, whileUnwinding: Others)

  datatype Limits = Limits(ackTimeout: int, fillTimeout: int, maxLegSkew: int, requiresUserChannel: bool)

  /** A request sent to the venue. */
  datatype VenueCall =
    | Buy(leg: Leg, size: real, price: real, nonce: int)
    | Sell(leg: Leg, size: real, price: real)
    | CancelOrder(orderId: string)
    | CancelMarket(leg: Leg)

  datatype Verdict = Submitted | Failed(reason: Reason)

  datatype AttemptResult = AttemptResult(
    verdict: Verdict, yesOrder: Option<OrderResponse>, noOrder: Option<OrderResponse>, state: Label)

  function OtherLeg(leg: Leg): Leg {
    if leg.Yes? then No else Yes
  }

  function Named(id: Option<string>): Option<string> {
    if id.Some? && id.value != "" then id else None
  }

  function OrderIdOf(order: Option<OrderResponse>): Option<string> {
    if order.None? then None else order.value.orderId
  }

  predicate IsDelayed(order: Option<OrderResponse>) {
    order.Some? && (order.value.status.Delayed? || order.value.errorMsg.OrderDelayedError?
      || order.value.error.OrderDelayedError?)
  }

  predicate IsRefused(order: Option<OrderResponse>) {
    order.Some? && (order.value.success == Some(false) || !order.value.errorMsg.NoError? || order.value.status.Refused?)
  }

  predicate IsSuccessful(order: Option<OrderResponse>) {
    order.Some? && !IsRefused(order) && !IsDelayed(order)
  }

  function PartialLeg(yesOrder: Option<OrderResponse>, noOrder: Option<OrderResponse>): Option<Leg> {
    if IsSuccessful(yesOrder) && !IsSuccessful(noOrder) then Some(Yes)
    else if IsSuccessful(noOrder) && !IsSuccessful(yesOrder) then Some(No)
    else None
  }

  /** A leg whose record is live and names an order is answered locally; any other asks the venue. */
  function Settle(record: LegRecord, answer: LegAnswer): LegAnswer {
    if MustSend(record) then answer
    else match answer
      case Answered(_, at) => Answered(Some(OrderResponse(Some(true), Live, NoError, NoError, None)), at)
      case _ => Answered(Some(OrderResponse(Some(true), Live, NoError, NoError, None)), 0)
  }

  function WithOrderId(order: Option<OrderResponse>, id: Option<string>): Option<OrderResponse> {
    if Named(id).None? || OrderIdOf(order).Some? then order
    else if order.None? then Some(OrderResponse(None, NoStatus, NoError, NoError, id))
    else Some(order.value.(orderId := id))
  }

  function BuysOf(terms: Terms, yes: LegRecord, no: LegRecord): seq<VenueCall> {
    (if MustSend(yes) then [Buy(Yes, terms.size, terms.yesPrice, yes.nonce)] else [])
    + (if MustSend(no) then [Buy(No, terms.size, terms.noPrice, no.nonce)] else [])
  }

  function CancelOf(leg: Leg, order: Option<OrderResponse>): VenueCall {
    if Named(OrderIdOf(order)).Some? then CancelOrder(OrderIdOf(order).value) else CancelMarket(leg)
  }

  /** Interleaved moves belong to other executions: a market is reserved while its attempt runs. */
  ghost predicate Foreign(others: Others, id: string) {
    forall o :: o in others ==> o.0.id != id
  }

  ghost predicate AllForeign(env: Environment, id: string) {
    && Foreign(env.whileSubmitting, id) && Foreign(env.whileFilling, id)
    && Foreign(env.whileCancelling, id) && Foreign(env.whileUnwinding, id)
  }

  function Acked(r: LegRecord, orderId: Option<string>, at: int): LegRecord {
    r.(orderId := orderId, status := if Named(orderId).Some? then Status.Submitted else r.status, updatedAt := at)
  }

  function Confirmations(r: LegRecord, orderId: Option<string>, at: int): seq<Op> {
    if Named(orderId).Some? then [ConfirmedAs(r, orderId, at)] else []
  }

  function EntriesOf(steps: seq<Step>): seq<StoredEvent> {
    seq(|steps|, i requires 0 <= i < |steps| => Stored(steps[i].event.at, steps[i]))
  }

  /** The events of a run, in order. */
  function EventsIn(steps: seq<Step>): seq<Event> {
    seq(|steps|, i requires 0 <= i < |steps| => steps[i].event)
  }

  lemma NoEvents()
    ensures EventsIn([]) == []
  {
  }

  lemma EventsPush(steps: seq<Step>, step: Step)
    ensures EventsIn(steps + [step]) == EventsIn(steps) + [step.event]
  {
  }

  lemma RunExtends(start: Paired, steps: seq<Step>, event: Event, next: Paired)
    requires IsRun(start, steps) && Transition(EndOf(start, steps), event) == Success(next)
    ensures IsRun(start, steps + [Step(event, next)])
    ensures EndOf(start, steps + [Step(event, next)]) == next
    ensures EntriesOf(steps + [Step(event, next)]) == EntriesOf(steps) + [Stored(event.at, Step(event, next))]
  {
    var more := steps + [Step(event, next)];
    forall i: nat | i < |more|
      ensures Accepted(start, more, i)
    {
      if i < |steps| {
        assert Accepted(start, steps, i);
        assert StateAt(start, more, i) == StateAt(start, steps, i);
      }
    }
  }

  lemma NeverBreaks(current: Paired, event: Event)
    requires Transition(current, event).Success? && !event.BreakUnwind?
    ensures Transition(current, event).value.state != UnwindFailed
    ensures Transition(current, event).value.id == current.id
  {
  }

  /**
   * Everything logged for this execution since its run began is a run of the table that avoids
   * `UnwindFailed`; once it is over, its id is no longer live.
   */
  ghost predicate Tracks(start: Paired, steps: seq<Step>, reached: Paired, before: seq<StoredEvent>,
        log: seq<StoredEvent>, active: Live)
  {
    && Fresh(start)
    && IsRun(start, steps) && Avoids(steps, UnwindFailed) && EndOf(start, steps) == reached
    && Coherent(active, log)
    && Mine(log, start.id) == before + EntriesOf(steps)
    && (Terminal(reached.state) ==> start.id !in active)
  }

  lemma TracksOn(start: Paired, steps: seq<Step>, reached: Paired, before: seq<StoredEvent>, log: seq<StoredEvent>,
      active: Live, event: Event, next: Paired, newLog: seq<StoredEvent>, newActive: Live)
    requires Tracks(start, steps, reached, before, log, active)
    requires Transition(reached, event) == Success(next) && !event.BreakUnwind? && reached.id == start.id
    requires newLog == log + [Stored(event.at, Step(event, next))] && newActive == Record(active, next)
    requires Coherent(newActive, newLog)
    ensures Tracks(start, steps + [Step(event, next)], next, before, newLog, newActive) && next.id == start.id
  {
    hide IsRun, EndOf, EntriesOf, Filter, Coherent, Allowed, Apply;
    var more, entry := steps + [Step(event, next)], Stored(event.at, Step(event, next));
    assert next.id == start.id && Avoids(more, UnwindFailed) by {
      NeverBreaks(reached, event);
    }
    assert IsRun(start, more) && EndOf(start, more) == next && EntriesOf(more) == EntriesOf(steps) + [entry] by {
      RunExtends(start, steps, event, next);
    }
    assert Mine(newLog, start.id) == Mine(log, start.id) + [entry] by {
      FilterPush(Of(start.id), log, entry);
    }
  }

  // ------------------------------------------------------------------ how an attempt must end

  /** The exits, with the time their last record calls carry: done, both cancelled, or one leg sold again. */
  datatype Exit = Done(at: int) | CancelBoth(reason: Reason, at: int) | UnwindLeg(leg: Leg, size: real, at: int)

  /** A failure before any fill is seen is judged by the two responses. */
  function ByOrders(yesOrder: Option<OrderResponse>, noOrder: Option<OrderResponse>, reason: Reason, size: real,
        at: int): Exit
  {
    var filledLeg := PartialLeg(yesOrder, noOrder);
    if filledLeg.None? then CancelBoth(reason, at) else UnwindLeg(filledLeg.value, size, at)
  }

  /** Why an acknowledged pair must not go on, if anything: the checks in the source's order. */
  function AckProblem(yes: LegAnswer, no: LegAnswer, limits: Limits, submitAt: int): Option<Reason>
    requires yes.Answered? && no.Answered?
  {
    if limits.ackTimeout > 0 && MaxInt(yes.at, no.at) - submitAt > limits.ackTimeout then Some(OrderTimeout)
    else if IsDelayed(yes.response) || IsDelayed(no.response) then Some(OrderDelayed)
    else if IsRefused(yes.response) || IsRefused(no.response) then Some(OrderRejected)
    else if limits.maxLegSkew > 0 && AbsInt(yes.at - no.at) > limits.maxLegSkew then Some(LegSkewExceeded)
    else None
  }

  function FillsSeenAt(env: Environment): int {
    MaxInt(env.yesOutcome.observedAt, env.noOutcome.observedAt)
  }

  predicate BothFull(env: Environment) {
    env.yesOutcome.fullyFilled && env.noOutcome.fullyFilled
  }

  /** The one leg that matched anything, if only one did. */
  function OnlyMatched(env: Environment): Option<Leg> {
    if env.yesOutcome.sizeMatched > 0.0 && env.noOutcome.sizeMatched <= 0.0 then Some(Yes)
    else if env.noOutcome.sizeMatched > 0.0 && env.yesOutcome.sizeMatched <= 0.0 then Some(No)
    else None
  }

  function OutcomeOf(env: Environment, leg: Leg): FillOutcome {
    if leg.Yes? then env.yesOutcome else env.noOutcome
  }

  function MatchedOf(env: Environment, leg: Leg): real {
    OutcomeOf(env, leg).sizeMatched
  }

  function LateReason(env: Environment): Reason {
    if env.yesOutcome.timedOut || env.noOutcome.timedOut then OrderTimeout else OrderFailed
  }

  function AfterFills(yesOrder: Option<OrderResponse>, noOrder: Option<OrderResponse>, env: Environment,
        size: real): Exit
  {
    var only := OnlyMatched(env);
    if BothFull(env) then Done(FillsSeenAt(env))
    else if only.Some? then UnwindLeg(only.value, Min(MatchedOf(env, only.value), size), FillsSeenAt(env))
    else ByOrders(yesOrder, noOrder, LateReason(env), size, FillsSeenAt(env))
  }

  /** Fills are awaited only where the user channel reports them, for what is left of the fill timeout. */
  predicate AwaitsFills(limits: Limits, env: Environment, ackedAt: int) {
    limits.requiresUserChannel && limits.fillTimeout > 0 && limits.fillTimeout - (env.checkAt - ackedAt) > 0
  }

  /** Order ids of the two legs as the run knows them after the acknowledgements. */
  datatype Ids = Ids(yes: Option<string>, no: Option<string>)

  predicate BothNamed(ids: Ids) {
    Named(ids.yes).Some? && Named(ids.no).Some?
  }

  function AfterAcks(yesOrder: Option<OrderResponse>, noOrder: Option<OrderResponse>, ids: Ids, ackedAt: int,
    limits: Limits, env: Environment, size: real): Exit
  {
    if !AwaitsFills(limits, env, ackedAt) then Done(env.finishAt)
    else if !BothNamed(ids) then ByOrders(yesOrder, noOrder, OrderFailed, size, env.finishAt)
    else AfterFills(yesOrder, noOrder, env, size)
  }

  function IdsOf(yes: LegAnswer, no: LegAnswer, yesRecord: LegRecord, noRecord: LegRecord): Ids
    requires yes.Answered? && no.Answered?
  {
    Ids(Or(OrderIdOf(yes.response), yesRecord.orderId), Or(OrderIdOf(no.response), noRecord.orderId))
  }

  /** The exit of a pair of answered submissions. */
  function AfterAnswers(yes: LegAnswer, no: LegAnswer, ids: Ids, limits: Limits, env: Environment, size: real): Exit
    requires yes.Answered? && no.Answered?
  {
    var yesOrder, noOrder := WithOrderId(yes.response, ids.yes), WithOrderId(no.response, ids.no);
    var ackedAt, problem := MaxInt(yes.at, no.at), AckProblem(yes, no, limits, env.submitAt);
    if problem.Some? then ByOrders(yesOrder, noOrder, problem.value, size, ackedAt)
    else AfterAcks(yesOrder, noOrder, ids, ackedAt, limits, env, size)
  }

  function ResponseOf(answer: LegAnswer): Option<OrderResponse> {
    if answer.Answered? then answer.response else None
  }

  function SubmitReason(yes: LegAnswer, no: LegAnswer): Reason {
    if yes.OutOfTime? || no.OutOfTime? then OrderTimeout else OrderFailed
  }

  /** The exit of a whole attempt. */
  function ExitOf(yes: LegAnswer, no: LegAnswer, yesRecord: LegRecord, noRecord: LegRecord, limits: Limits,
        env: Environment, size: real): Exit
  {
    if yes.Answered? && no.Answered? then AfterAnswers(yes, no, IdsOf(yes, no, yesRecord, noRecord), limits, env, size)
    else ByOrders(ResponseOf(yes), ResponseOf(no), SubmitReason(yes, no), size, env.settledAt)
  }

  predicate SaleWorked(env: Environment) {
    env.unwindAnswer.UnwindAnswered? && IsSuccessful(env.unwindAnswer.response)
  }

  /** The requests an exit adds to those already sent. */
  function Requests(exit: Exit, yesOrder: Option<OrderResponse>, noOrder: Option<OrderResponse>,
        price: real): seq<VenueCall>
  {
    match exit
    case Done(_) => []
    case CancelBoth(_, _) => [CancelOf(Yes, yesOrder), CancelOf(No, noOrder)]
    case UnwindLeg(leg, size, _) =>
      [CancelOf(OtherLeg(leg), if leg.Yes? then noOrder else yesOrder), Sell(leg, size, price)]
  }

  function VerdictOf(exit: Exit, env: Environment): Verdict {
    match exit
    case Done(_) => Verdict.Submitted
    case CancelBoth(reason, _) => Verdict.Failed(reason)
    case UnwindLeg(_, _, _) => Verdict.Failed(if SaleWorked(env) then PartiallyFilled else UnwindBroke)
  }

  function LabelOf(exit: Exit, env: Environment): Label {
    if exit.Done? || (exit.UnwindLeg? && SaleWorked(env)) then Complete else Label.Failed
  }

  function UnwindEvents(env: Environment): seq<Event> {
    [StartUnwind(env.unwindAt)] + SaleEvents(SaleWorked(env), env.unwoundAt)
  }

  function SaleEvents(ok: bool, at: int): seq<Event> {
    if ok then [EndUnwind(at), Finish(at)] else [Event.Fail(at, UnwindBroke)]
  }

  /** The events an exit fires: both fills, a cancel, or one fill and its unwind. */
  function ExitEvents(exit: Exit, env: Environment): seq<Event> {
    match exit
    case Done(at) => [FillYes(at), FillNo(at), Finish(at)]
    case CancelBoth(reason, at) => [StartCancel(at), Event.Fail(at, reason)]
    case UnwindLeg(leg, _, at) => [if leg.Yes? then FillYes(at) else FillNo(at), FillPart(at)] + UnwindEvents(env)
  }

  function SubmitEvents(now: int, submitAt: int): seq<Event> {
    [SubmitStarted(now), SubmitYes(submitAt), SubmitNo(submitAt)]
  }

  function AckEvents(yes: LegAnswer, no: LegAnswer, ids: Ids): seq<Event>
    requires yes.Answered? && no.Answered?
  {
    [AckYes(yes.at, WithOrderId(yes.response, ids.yes)), AckNo(no.at, WithOrderId(no.response, ids.no))]
  }

  /** All events of an attempt. */
  function RunEvents(yes: LegAnswer, no: LegAnswer, yesRecord: LegRecord, noRecord: LegRecord, now: int,
        exit: Exit, env: Environment): seq<Event>
  {
    SubmitEvents(now, env.submitAt)
    + (if yes.Answered? && no.Answered? then AckEvents(yes, no, IdsOf(yes, no, yesRecord, noRecord)) else [])
    + ExitEvents(exit, env)
  }

  /** The execution, the result and the requests are those of this exit. */
  ghost predicate EndsAs(exit: Exit, env: Environment, end: Paired, r: AttemptResult, sent: seq<VenueCall>,
        calls: seq<VenueCall>)
  {
    && end.state == LabelOf(exit, env) && r.state == end.state && r.verdict == VerdictOf(exit, env)
    && end.yesFilled == (exit.Done? || (exit.UnwindLeg? && exit.leg.Yes?))
    && end.noFilled == (exit.Done? || (exit.UnwindLeg? && exit.leg.No?))
    && calls == sent + Requests(exit, r.yesOrder, r.noOrder, env.unwindPrice)
  }

  function ConfirmedAs(r: LegRecord, orderId: Option<string>, at: int): Op {
    Save(r.(orderId := orderId, status := Confirmed, updatedAt := at))
  }

  /** The record calls an exit ends with: confirmations under the order ids, or both records failed. */
  function Closing(exit: Exit, yes: LegRecord, no: LegRecord, ids: Ids): seq<Op> {
    if exit.Done? then Confirmations(yes, ids.yes, exit.at) + Confirmations(no, ids.no, exit.at)
    else [Op.Fail(yes.key, exit.at), Op.Fail(no.key, exit.at)]
  }

  function Acknowledgements(yes: LegAnswer, no: LegAnswer, yesRecord: LegRecord, noRecord: LegRecord, ids: Ids): seq<Op>
    requires yes.Answered? && no.Answered?
  {
    [Save(Acked(yesRecord, ids.yes, yes.at)), Save(Acked(noRecord, ids.no, no.at))]
  }

  function RecordCalls(yes: LegAnswer, no: LegAnswer, yesRecord: LegRecord, noRecord: LegRecord, exit: Exit): seq<Op> {
    if yes.Answered? && no.Answered? then
      var ids := IdsOf(yes, no, yesRecord, noRecord);
      Acknowledgements(yes, no, yesRecord, noRecord, ids) + Closing(exit, yesRecord, noRecord, ids)
    else Closing(exit, yesRecord, noRecord, Ids(None, None))
  }

  /** The ids the agent stops tracking once the attempt is over. */
  function Tracked(ids: Ids): seq<string> {
    (if Named(ids.yes).Some? then [ids.yes.value] else []) + (if Named(ids.no).Some? then [ids.no.value] else [])
  }

  /**
   * An attempt counts as submitted exactly when both legs were answered in time, neither delayed nor
   * refused, within the skew, and both fills were seen, unless fills are not awaited at all.
   */
  lemma SubmittedIff(yes: LegAnswer, no: LegAnswer, yesRecord: LegRecord, noRecord: LegRecord, limits: Limits,
        env: Environment, size: real)
    ensures ExitOf(yes, no, yesRecord, noRecord, limits, env, size).Done? <==>
      && yes.Answered? && no.Answered?
      && (limits.ackTimeout > 0 ==>
            yes.at - env.submitAt <= limits.ackTimeout && no.at - env.submitAt <= limits.ackTimeout)
      && (limits.maxLegSkew > 0 ==> -limits.maxLegSkew <= yes.at - no.at <= limits.maxLegSkew)
      && !IsDelayed(yes.response) && !IsDelayed(no.response) && !IsRefused(yes.response) && !IsRefused(no.response)
      && (AwaitsFills(limits, env, MaxInt(yes.at, no.at)) ==>
            BothNamed(IdsOf(yes, no, yesRecord, noRecord)) && BothFull(env))
  {
  }

  /** An unwind never sells more than the size bought, and after observed fills never more than matched. */
  lemma SellsNoMoreThanBought(yes: LegAnswer, no: LegAnswer, yesRecord: LegRecord, noRecord: LegRecord,
        limits: Limits, env: Environment, size: real)
    ensures var exit := ExitOf(yes, no, yesRecord, noRecord, limits, env, size);
      exit.UnwindLeg? ==>
        exit.size <= size
        && (exit.size < size ==> exit.size == MatchedOf(env, exit.leg) && OnlyMatched(env) == Some(exit.leg))
  {
  }

  predicate FullOf(env: Environment, leg: Leg) {
    OutcomeOf(env, leg).fullyFilled
  }

  /** What the outcome says the leg bought: what it matched, and at least its whole size if it counts as full. */
  function Bought(env: Environment, leg: Leg, size: real): real {
    if FullOf(env, leg) then Max(size, MatchedOf(env, leg)) else MatchedOf(env, leg)
  }

  /** What the leg bought is kept as half of a pair, or all of it was sold again. */
  predicate AccountedFor(env: Environment, exit: Exit, leg: Leg, size: real, sold: real) {
    exit.Done? || (exit.UnwindLeg? && exit.leg == leg && Bought(env, leg, size) <= sold)
  }

  /** `sold` is what the sale of an unwind really sold. */
  predicate LeftHolding(env: Environment, exit: Exit, leg: Leg, size: real, sold: real) {
    Bought(env, leg, size) > 0.0 && !AccountedFor(env, exit, leg, size, sold)
  }

  /** What the runner takes to be sold: the size asked for if the answer is good, else nothing. */
  function PresumedSold(env: Environment, exit: Exit): real {
    if exit.UnwindLeg? && SaleWorked(env) then exit.size else 0.0
  }

  /** One leg alone matched, and less was sold than it bought. */
  predicate SoldTooLittle(env: Environment, size: real, sold: real) {
    OnlyMatched(env).Some? && sold < Bought(env, OnlyMatched(env).value, size)
  }

  /** One leg alone matched, and its sale did not go through or was for less than it bought. */
  predicate SaleFallsShort(env: Environment, size: real) {
    OnlyMatched(env).Some?
    && var only := OnlyMatched(env).value;
      !SaleWorked(env) || Bought(env, only, size) > Min(MatchedOf(env, only), size)
  }

  /** A leg that is full by its status although no matched size was reported for it. */
  predicate FullByStatusAlone(env: Environment, leg: Leg) {
    FullOf(env, leg) && MatchedOf(env, leg) <= 0.0
  }

  /** Good acknowledgements, and both fills were awaited. */
  predicate FillsAwaited(yes: LegAnswer, no: LegAnswer, yesRecord: LegRecord, noRecord: LegRecord, limits: Limits,
      env: Environment) {
    && yes.Answered? && no.Answered? && AckProblem(yes, no, limits, env.submitAt).None?
    && AwaitsFills(limits, env, MaxInt(yes.at, no.at)) && BothNamed(IdsOf(yes, no, yesRecord, noRecord))
  }

  /** Both legs matched some size, or one bought its size without a matched size to show for it. */
  predicate BuysGoUnsold(env: Environment, size: real) {
    || (env.yesOutcome.sizeMatched > 0.0 && env.noOutcome.sizeMatched > 0.0)
    || (size > 0.0 && (FullByStatusAlone(env, Yes) || FullByStatusAlone(env, No)))
  }

  /**
   * After awaited fills, and whatever the sale of an unwound leg really sold, some of what a leg bought
   * is neither kept nor sold if and only if not both are full and both matched some size, one is full by
   * its status alone, or one alone matched and less was sold than it bought.
   */
  lemma HoldingIff(yes: LegAnswer, no: LegAnswer, yesRecord: LegRecord, noRecord: LegRecord, limits: Limits,
      env: Environment, size: real, sold: real)
    requires FillsAwaited(yes, no, yesRecord, noRecord, limits, env)
    ensures var exit := ExitOf(yes, no, yesRecord, noRecord, limits, env, size);
      LeftHolding(env, exit, Yes, size, sold) || LeftHolding(env, exit, No, size, sold) <==>
        !BothFull(env) && (BuysGoUnsold(env, size) || SoldTooLittle(env, size, sold))
  {
    GoodAcksSucceed(yes, no, yesRecord, noRecord, limits, env);
    hide AckProblem, IsSuccessful, WithOrderId;
  }

  /**
   * The same for what the runner takes to be sold: the sale falls short when it did not go through, or
   * when its leg bought more than the size it asks for.
   */
  lemma LegIsLeftHoldingIff(yes: LegAnswer, no: LegAnswer, yesRecord: LegRecord, noRecord: LegRecord, limits: Limits,
      env: Environment, size: real)
    requires FillsAwaited(yes, no, yesRecord, noRecord, limits, env)
    ensures var exit := ExitOf(yes, no, yesRecord, noRecord, limits, env, size);
      var sold := PresumedSold(env, exit);
      LeftHolding(env, exit, Yes, size, sold) || LeftHolding(env, exit, No, size, sold) <==>
        !BothFull(env) && (BuysGoUnsold(env, size) || SaleFallsShort(env, size))
  {
    GoodAcksSucceed(yes, no, yesRecord, noRecord, limits, env);
    hide AckProblem, IsSuccessful, WithOrderId, SaleWorked;
  }

  /** A sale that is refused or gets no answer: the execution fails, still holding what one leg matched. */
  lemma FailedSaleIsHeld(yes: LegAnswer, no: LegAnswer, yesRecord: LegRecord, noRecord: LegRecord, limits: Limits,
      env: Environment, size: real, leg: Leg)
    requires FillsAwaited(yes, no, yesRecord, noRecord, limits, env)
    requires OnlyMatched(env) == Some(leg) && !BothFull(env) && !SaleWorked(env)
    ensures var exit := ExitOf(yes, no, yesRecord, noRecord, limits, env, size);
      exit.UnwindLeg? && exit.leg == leg && LeftHolding(env, exit, leg, size, PresumedSold(env, exit))
      && VerdictOf(exit, env) == Verdict.Failed(UnwindBroke) && LabelOf(exit, env) == Label.Failed
  {
    GoodAcksSucceed(yes, no, yesRecord, noRecord, limits, env);
    hide AckProblem, IsSuccessful, WithOrderId;
  }

  /**
   * A leg full by its status of which only a part was reported: that part is sold, the execution ends
   * complete, and the rest is still held.
   */
  lemma UnreportedPartIsHeld(yes: LegAnswer, no: LegAnswer, yesRecord: LegRecord, noRecord: LegRecord, limits: Limits,
      env: Environment, size: real, leg: Leg)
    requires FillsAwaited(yes, no, yesRecord, noRecord, limits, env)
    requires OnlyMatched(env) == Some(leg) && !BothFull(env) && SaleWorked(env)
    requires FullOf(env, leg) && MatchedOf(env, leg) < size
    ensures var exit := ExitOf(yes, no, yesRecord, noRecord, limits, env, size);
      exit == UnwindLeg(leg, MatchedOf(env, leg), FillsSeenAt(env)) && LabelOf(exit, env) == Complete
      && LeftHolding(env, exit, leg, size, PresumedSold(env, exit))
  {
    GoodAcksSucceed(yes, no, yesRecord, noRecord, limits, env);
    hide AckProblem, IsSuccessful, WithOrderId;
  }

  // ------------------------------------------------------------------ failures before fills are awaited

  /** The two responses as the failure exits judge them. */
  function Judged(yes: LegAnswer, no: LegAnswer, yesRecord: LegRecord, noRecord: LegRecord)
    : (r: (Option<OrderResponse>, Option<OrderResponse>))
  {
    if yes.Answered? && no.Answered? then
      var ids := IdsOf(yes, no, yesRecord, noRecord);
      (WithOrderId(yes.response, ids.yes), WithOrderId(no.response, ids.no))
    else (ResponseOf(yes), ResponseOf(no))
  }

  /**
   * A pair that fails before its fills are awaited sells a leg, in its whole size, if and only if exactly
   * one response is successful, and then that leg; otherwise it cancels both.
   */
  lemma UnseenFailureSellsIff(yes: LegAnswer, no: LegAnswer, yesRecord: LegRecord, noRecord: LegRecord, limits: Limits,
      env: Environment, size: real)
    requires !FillsAwaited(yes, no, yesRecord, noRecord, limits, env)
    ensures var exit := ExitOf(yes, no, yesRecord, noRecord, limits, env, size);
      var orders := Judged(yes, no, yesRecord, noRecord);
      !exit.Done? ==>
        && (exit.UnwindLeg? <==> IsSuccessful(orders.0) != IsSuccessful(orders.1))
        && (exit.UnwindLeg? ==> exit.size == size && (exit.leg.Yes? <==> IsSuccessful(orders.0)))
  {
    hide IsSuccessful, WithOrderId;
  }

  predicate TooLate(yes: LegAnswer, no: LegAnswer, limits: Limits, env: Environment)
    requires yes.Answered? && no.Answered?
  {
    limits.ackTimeout > 0 && (yes.at - env.submitAt > limits.ackTimeout || no.at - env.submitAt > limits.ackTimeout)
  }

  predicate TooFarApart(yes: LegAnswer, no: LegAnswer, limits: Limits)
    requires yes.Answered? && no.Answered?
  {
    limits.maxLegSkew > 0 && !(-limits.maxLegSkew <= yes.at - no.at <= limits.maxLegSkew)
  }

  /**
   * Two successful responses, so two orders filled or killed by then: both are cancelled and nothing is
   * sold, before any fill is looked at, if and only if one came too late, they came too far apart, or
   * fills are to be awaited of an order without an id.
   */
  lemma GoodPairIsCancelledIff(yes: LegAnswer, no: LegAnswer, yesRecord: LegRecord, noRecord: LegRecord,
      limits: Limits, env: Environment, size: real)
    requires yes.Answered? && no.Answered? && !FillsAwaited(yes, no, yesRecord, noRecord, limits, env)
    requires var orders := Judged(yes, no, yesRecord, noRecord); IsSuccessful(orders.0) && IsSuccessful(orders.1)
    ensures var exit := ExitOf(yes, no, yesRecord, noRecord, limits, env, size);
      exit.CancelBoth? <==>
        || TooLate(yes, no, limits, env) || TooFarApart(yes, no, limits)
        || (AwaitsFills(limits, env, MaxInt(yes.at, no.at)) && !BothNamed(IdsOf(yes, no, yesRecord, noRecord)))
  {
    assert !IsDelayed(yes.response) && !IsRefused(yes.response);
    assert !IsDelayed(no.response) && !IsRefused(no.response);
    hide IsSuccessful, WithOrderId, IsDelayed, IsRefused;
  }

  /** Acknowledgements without a problem are successful orders, so fills not seen in full never pick a leg to sell. */
  lemma GoodAcksSucceed(yes: LegAnswer, no: LegAnswer, yesRecord: LegRecord, noRecord: LegRecord, limits: Limits,
      env: Environment)
    requires FillsAwaited(yes, no, yesRecord, noRecord, limits, env)
    ensures var ids := IdsOf(yes, no, yesRecord, noRecord);
      IsSuccessful(WithOrderId(yes.response, ids.yes)) && IsSuccessful(WithOrderId(no.response, ids.no))
  {
  }

  /** Both legs matched some size, not both in full: both are cancelled and nothing is sold. */
  lemma BothInPartSellsNothing(yes: LegAnswer, no: LegAnswer, yesRecord: LegRecord, noRecord: LegRecord, limits: Limits,
      env: Environment, size: real)
    requires FillsAwaited(yes, no, yesRecord, noRecord, limits, env)
    requires env.yesOutcome.sizeMatched > 0.0 && env.noOutcome.sizeMatched > 0.0 && !BothFull(env)
    ensures ExitOf(yes, no, yesRecord, noRecord, limits, env, size) == CancelBoth(LateReason(env), FillsSeenAt(env))
  {
    GoodAcksSucceed(yes, no, yesRecord, noRecord, limits, env);
    hide AckProblem, IsSuccessful, WithOrderId;
  }

  /**
   * A leg full by its status alone: beside one that matched in part it is cancelled and the part is sold,
   * beside one that matched nothing both are cancelled. Either way what it bought is never sold.
   */
  lemma FullByStatusIsNeverSold(yes: LegAnswer, no: LegAnswer, yesRecord: LegRecord, noRecord: LegRecord,
      limits: Limits, env: Environment, size: real, leg: Leg)
    requires FillsAwaited(yes, no, yesRecord, noRecord, limits, env)
    requires FullByStatusAlone(env, leg) && !FullOf(env, OtherLeg(leg))
    ensures var other, matched := OtherLeg(leg), MatchedOf(env, OtherLeg(leg));
      ExitOf(yes, no, yesRecord, noRecord, limits, env, size)
      == if matched > 0.0 then UnwindLeg(other, Min(matched, size), FillsSeenAt(env))
        else CancelBoth(LateReason(env), FillsSeenAt(env))
  {
    GoodAcksSucceed(yes, no, yesRecord, noRecord, limits, env);
    hide AckProblem, IsSuccessful, WithOrderId;
  }

  /**
   * Every exit is safe: `failed` or `complete`, submitted exactly when both legs are filled, and then
   * nothing more is sent.
   */
  lemma EndsSafely(exit: Exit, env: Environment, end: Paired, r: AttemptResult, sent: seq<VenueCall>,
        calls: seq<VenueCall>)
    requires EndsAs(exit, env, end, r, sent, calls)
    ensures end.state == Label.Failed || end.state == Complete
    ensures r.verdict.Submitted? <==> end.yesFilled && end.noFilled
    ensures r.verdict.Submitted? ==> end.state == Complete && calls == sent
    ensures r.verdict.Failed? && !end.yesFilled && !end.noFilled ==>
      end.state == Label.Failed && calls == sent + [CancelOf(Yes, r.yesOrder), CancelOf(No, r.noOrder)]
  {
  }

  lemma OverIsGone(start: Paired, steps: seq<Step>, before: seq<StoredEvent>, log: seq<StoredEvent>, active: Live,
      exit: Exit, env: Environment, end: Paired, r: AttemptResult, sent: seq<VenueCall>, calls: seq<VenueCall>)
    requires Tracks(start, steps, end, before, log, active) && EndsAs(exit, env, end, r, sent, calls)
    ensures start.id !in active
  {
  }

  // ------------------------------------------------------------------ the run in the venue's own terms

  /** The venue must be asked for a leg: its record failed, or names no order. */
  ghost predicate MustAsk(record: LegRecord) {
    record.status == Status.Failed || record.orderId == None || record.orderId == Some("")
  }

  /** A leg is bought exactly when the venue must be asked, once, under these terms, before anything but buys. */
  ghost predicate BuysLegOnce(calls: seq<VenueCall>, leg: Leg, record: LegRecord, size: real, price: real) {
    && (MustAsk(record) <==> exists k :: 0 <= k < |calls| && BuysLeg(calls[k], leg))
    && (forall k :: 0 <= k < |calls| && BuysLeg(calls[k], leg) ==>
          && calls[k] == Buy(leg, size, price, record.nonce)
          && (forall j :: 0 <= j < k ==> calls[j].Buy?)
          && (forall j :: 0 <= j < |calls| && BuysLeg(calls[j], leg) ==> j == k))
  }

  ghost predicate BuysLeg(call: VenueCall, leg: Leg) {
    call.Buy? && call.leg == leg
  }

  /** An order is cancelled by its id where it has one, and otherwise all of the leg's orders are. */
  ghost predicate CancelsLeg(call: VenueCall, leg: Leg, order: Option<OrderResponse>) {
    if order.Some? && order.value.orderId.Some? && order.value.orderId.value != "" then
      call == CancelOrder(order.value.orderId.value)
    else call == CancelMarket(leg)
  }

  /**
   * What follows the buys: nothing for a pair filled on both legs, both cancels where neither was, and
   * otherwise the cancel of the other leg and the sale of the filled one.
   */
  ghost predicate ClosesWith(rest: seq<VenueCall>, end: Paired, r: AttemptResult, size: real, price: real) {
    if end.yesFilled && end.noFilled then rest == []
    else
      && |rest| == 2
      && if end.yesFilled then CancelsLeg(rest[0], No, r.noOrder) && rest[1] == Sell(Yes, size, price)
         else if end.noFilled then CancelsLeg(rest[0], Yes, r.yesOrder) && rest[1] == Sell(No, size, price)
         else CancelsLeg(rest[0], Yes, r.yesOrder) && CancelsLeg(rest[1], No, r.noOrder)
  }

  /** Some buys, and then what closes the run. */
  ghost predicate Sends(calls: seq<VenueCall>, end: Paired, r: AttemptResult, size: real, price: real) {
    exists n: nat :: n <= |calls| && OnlyBuys(calls, n) && ClosesWith(calls[n..], end, r, size, price)
  }

  ghost predicate OnlyBuys(calls: seq<VenueCall>, n: nat) {
    n <= |calls| && forall k :: 0 <= k < n ==> calls[k].Buy?
  }

  /** The order was taken: neither refused, nor failed, nor delayed. */
  ghost predicate Taken(order: Option<OrderResponse>) {
    order.Some? && !SaysDelayed(order) && !SaysRefused(order)
  }

  ghost predicate SaysDelayed(order: Option<OrderResponse>) {
    && order.Some?
    && (order.value.status == Delayed
        || order.value.errorMsg == OrderDelayedError || order.value.error == OrderDelayedError)
  }

  ghost predicate SaysRefused(order: Option<OrderResponse>) {
    && order.Some?
    && (order.value.success == Some(false) || order.value.errorMsg != NoError || order.value.status == Refused)
  }

  /** The result: submitted with both legs filled, a failure with its reason otherwise. */
  ghost predicate Tells(r: AttemptResult, end: Paired, exit: Exit, env: Environment) {
    var sold := env.unwindAnswer.UnwindAnswered? && Taken(env.unwindAnswer.response);
    && r.state == end.state
    && match exit
       case Done(_) => end.yesFilled && end.noFilled && r.verdict == Verdict.Submitted && r.state == Complete
       case CancelBoth(reason, _) =>
         !end.yesFilled && !end.noFilled && r.verdict == Verdict.Failed(reason) && r.state == Label.Failed
       case UnwindLeg(leg, _, _) =>
         && (end.yesFilled <==> leg == Yes) && (end.noFilled <==> leg == No)
         && r.verdict == Verdict.Failed(if sold then PartiallyFilled else UnwindBroke)
         && r.state == (if sold then Complete else Label.Failed)
  }

  /** A failure is judged by the two orders: one alone taken is sold again, else both are cancelled. */
  ghost predicate Judges(exit: Exit, yes: Option<OrderResponse>, no: Option<OrderResponse>, reason: Reason, size: real,
      at: int)
  {
    if Taken(yes) && !Taken(no) then exit == UnwindLeg(Yes, size, at)
    else if Taken(no) && !Taken(yes) then exit == UnwindLeg(No, size, at)
    else exit == CancelBoth(reason, at)
  }

  /** The id a leg's order is known under: the response's, or else the record's. */
  ghost function KnownId(answer: LegAnswer, record: LegRecord): Option<string> {
    if answer.Answered? && answer.response.Some? && answer.response.value.orderId.Some? then
      answer.response.value.orderId
    else record.orderId
  }

  ghost predicate IsName(id: Option<string>) {
    id.Some? && id.value != ""
  }

  /** The order a leg ends with: its response, where both legs were answered with the known id filled in. */
  ghost predicate Carries(order: Option<OrderResponse>, yes: LegAnswer, no: LegAnswer, own: LegAnswer,
      record: LegRecord)
    requires own == yes || own == no
  {
    if !yes.Answered? || !no.Answered? then order == (if own.Answered? then own.response else None)
    else if !IsName(KnownId(own, record)) then order == own.response
    else if own.response.None? then order == Some(OrderResponse(None, NoStatus, NoError, NoError, record.orderId))
    else order == Some(own.response.value.(orderId := KnownId(own, record)))
  }

  ghost function Later(a: int, b: int): int {
    if a < b then b else a
  }

  /** Fills are waited for: they are reported, and some of the time for them is left. */
  ghost predicate Waits(limits: Limits, env: Environment, ackedAt: int) {
    limits.requiresUserChannel && limits.fillTimeout > 0 && env.checkAt - ackedAt < limits.fillTimeout
  }

  /** The exit that two answered submissions call for, first match first. */
  ghost predicate DecidesPair(exit: Exit, yes: LegAnswer, no: LegAnswer, yesRecord: LegRecord, noRecord: LegRecord,
      yesOrder: Option<OrderResponse>, noOrder: Option<OrderResponse>, limits: Limits, env: Environment, size: real)
    requires yes.Answered? && no.Answered?
  {
    var at, y, n := Later(yes.at, no.at), env.yesOutcome, env.noOutcome;
    var seen := Later(y.observedAt, n.observedAt);
    if limits.ackTimeout > 0 && at > env.submitAt + limits.ackTimeout then
      Judges(exit, yesOrder, noOrder, OrderTimeout, size, at)
    else if SaysDelayed(yes.response) || SaysDelayed(no.response) then
      Judges(exit, yesOrder, noOrder, OrderDelayed, size, at)
    else if SaysRefused(yes.response) || SaysRefused(no.response) then
      Judges(exit, yesOrder, noOrder, OrderRejected, size, at)
    else if limits.maxLegSkew > 0 && !(no.at - limits.maxLegSkew <= yes.at <= no.at + limits.maxLegSkew) then
      Judges(exit, yesOrder, noOrder, LegSkewExceeded, size, at)
    else if !Waits(limits, env, at) then exit == Done(env.finishAt)
    else if !IsName(KnownId(yes, yesRecord)) || !IsName(KnownId(no, noRecord)) then
      Judges(exit, yesOrder, noOrder, OrderFailed, size, env.finishAt)
    else if y.fullyFilled && n.fullyFilled then exit == Done(seen)
    else if y.sizeMatched > 0.0 && n.sizeMatched <= 0.0 then
      exit == UnwindLeg(Yes, if y.sizeMatched < size then y.sizeMatched else size, seen)
    else if n.sizeMatched > 0.0 && y.sizeMatched <= 0.0 then
      exit == UnwindLeg(No, if n.sizeMatched < size then n.sizeMatched else size, seen)
    else exit == CancelBoth(if y.timedOut || n.timedOut then OrderTimeout else OrderFailed, seen)
  }

  /** The exit that the answers, their times and the fills call for. */
  ghost predicate Decides(exit: Exit, yes: LegAnswer, no: LegAnswer, yesRecord: LegRecord, noRecord: LegRecord,
      yesOrder: Option<OrderResponse>, noOrder: Option<OrderResponse>, limits: Limits, env: Environment, size: real)
  {
    if yes.Answered? && no.Answered? then
      DecidesPair(exit, yes, no, yesRecord, noRecord, yesOrder, noOrder, limits, env, size)
    else
      var reason := if yes.OutOfTime? || no.OutOfTime? then OrderTimeout else OrderFailed;
      Judges(exit, yesOrder, noOrder, reason, size, env.settledAt)
  }

  /** A record saved with another status, order and time, and otherwise as it was. */
  ghost function Changed(record: LegRecord, status: Status, id: Option<string>, at: int): Op {
    Save(LegRecord(record.key, record.nonce, status, id, record.createdAt, at))
  }

  /** Each answered pair is saved under its ids; then a pair that is done is confirmed and any other failed. */
  ghost predicate Records(ops: seq<Op>, yes: LegAnswer, no: LegAnswer, yesRecord: LegRecord, noRecord: LegRecord,
      exit: Exit)
  {
    var both := yes.Answered? && no.Answered?;
    var yesId, noId := KnownId(yes, yesRecord), KnownId(no, noRecord);
    && (both ==>
          && |ops| >= 2
          && ops[0] == Changed(yesRecord, if IsName(yesId) then Status.Submitted else yesRecord.status, yesId, yes.at)
          && ops[1] == Changed(noRecord, if IsName(noId) then Status.Submitted else noRecord.status, noId, no.at))
    && var rest := if both then ops[2..] else ops;
      if !exit.Done? then rest == [Op.Fail(yesRecord.key, exit.at), Op.Fail(noRecord.key, exit.at)]
      else
        both && rest == (if IsName(yesId) then [Changed(yesRecord, Confirmed, yesId, exit.at)] else [])
          + (if IsName(noId) then [Changed(noRecord, Confirmed, noId, exit.at)] else [])
  }

  /**
   * The events in order with their times: the submissions at the local time, the acknowledgements when each
   * answer came, with the orders the run ends with, and then those of the exit.
   */
  ghost predicate Fires(events: seq<Event>, yes: LegAnswer, no: LegAnswer, r: AttemptResult, now: int, exit: Exit,
      env: Environment)
  {
    var at := exit.at;
    var sold := env.unwindAnswer.UnwindAnswered? && Taken(env.unwindAnswer.response);
    && |events| >= 3
    && events[0] == SubmitStarted(now) && events[1] == SubmitYes(env.submitAt) && events[2] == SubmitNo(env.submitAt)
    && var rest := events[3..]; var both := yes.Answered? && no.Answered?;
      && (both ==> |rest| >= 2 && rest[0] == AckYes(yes.at, r.yesOrder) && rest[1] == AckNo(no.at, r.noOrder))
      && var last := if both then rest[2..] else rest;
        match exit
        case Done(_) => last == [FillYes(at), FillNo(at), Finish(at)]
        case CancelBoth(reason, _) => last == [StartCancel(at), Event.Fail(at, reason)]
        case UnwindLeg(leg, _, _) =>
          last == [if leg == Yes then FillYes(at) else FillNo(at), FillPart(at), StartUnwind(env.unwindAt)]
            + if sold then [EndUnwind(env.unwoundAt), Finish(env.unwoundAt)]
              else [Event.Fail(env.unwoundAt, UnwindBroke)]
  }

  lemma EventsAreFired(yes: LegAnswer, no: LegAnswer, yesRecord: LegRecord, noRecord: LegRecord, now: int, exit: Exit,
      env: Environment, r: AttemptResult)
    requires (r.yesOrder, r.noOrder) == Judged(yes, no, yesRecord, noRecord)
    ensures Fires(RunEvents(yes, no, yesRecord, noRecord, now, exit, env), yes, no, r, now, exit, env)
  {
    if env.unwindAnswer.UnwindAnswered? {
      TakenIs(env.unwindAnswer.response);
    }
    hide Taken, IsSuccessful, WithOrderId;
    var events := RunEvents(yes, no, yesRecord, noRecord, now, exit, env);
    var close := ExitEvents(exit, env);
    if yes.Answered? && no.Answered? {
      assert events[3..][2..] == close;
    } else {
      assert events[3..] == close;
    }
  }

  lemma TakenIs(order: Option<OrderResponse>)
    ensures Taken(order) <==> IsSuccessful(order)
    ensures SaysDelayed(order) <==> IsDelayed(order)
    ensures SaysRefused(order) <==> IsRefused(order)
  {
  }

  lemma JudgesIs(yes: Option<OrderResponse>, no: Option<OrderResponse>, reason: Reason, size: real, at: int)
    ensures Judges(ByOrders(yes, no, reason, size, at), yes, no, reason, size, at)
  {
    TakenIs(yes);
    TakenIs(no);
    hide Taken, IsSuccessful;
  }

  lemma ExitIsDecided(yes: LegAnswer, no: LegAnswer, yesRecord: LegRecord, noRecord: LegRecord, limits: Limits,
      env: Environment, size: real)
    ensures var orders := Judged(yes, no, yesRecord, noRecord);
      Decides(ExitOf(yes, no, yesRecord, noRecord, limits, env, size), yes, no, yesRecord, noRecord, orders.0, orders.1,
        limits, env, size)
  {
    if yes.Answered? && no.Answered? {
      PairIsDecided(yes, no, yesRecord, noRecord, limits, env, size);
    } else {
      JudgesIs(ResponseOf(yes), ResponseOf(no), SubmitReason(yes, no), size, env.settledAt);
      hide Judges, ByOrders;
    }
  }

  lemma PairIsDecided(yes: LegAnswer, no: LegAnswer, yesRecord: LegRecord, noRecord: LegRecord, limits: Limits,
      env: Environment, size: real)
    requires yes.Answered? && no.Answered?
    ensures var orders, ids := Judged(yes, no, yesRecord, noRecord), IdsOf(yes, no, yesRecord, noRecord);
      DecidesPair(AfterAnswers(yes, no, ids, limits, env, size), yes, no, yesRecord, noRecord, orders.0, orders.1,
        limits, env, size)
  {
    var ids, orders := IdsOf(yes, no, yesRecord, noRecord), Judged(yes, no, yesRecord, noRecord);
    var at := MaxInt(yes.at, no.at);
    TakenIs(yes.response);
    TakenIs(no.response);
    ProblemIs(yes, no, limits, env);
    var problem := AckProblem(yes, no, limits, env.submitAt);
    if problem.Some? {
      JudgesIs(orders.0, orders.1, problem.value, size, at);
    }
    JudgesIs(orders.0, orders.1, OrderFailed, size, env.finishAt);
    JudgesIs(orders.0, orders.1, LateReason(env), size, FillsSeenAt(env));
    if problem.None? && AwaitsFills(limits, env, at) && BothNamed(ids) {
      GoodAcksSucceed(yes, no, yesRecord, noRecord, limits, env);
      TakenIs(orders.0);
      TakenIs(orders.1);
    }
    hide ByOrders, WithOrderId, AckProblem, IsDelayed, IsRefused, IsSuccessful, SaysDelayed, SaysRefused, Taken;
  }

  lemma ProblemIs(yes: LegAnswer, no: LegAnswer, limits: Limits, env: Environment)
    requires yes.Answered? && no.Answered?
    ensures var at := Later(yes.at, no.at);
      AckProblem(yes, no, limits, env.submitAt) ==
      if limits.ackTimeout > 0 && at > env.submitAt + limits.ackTimeout then Some(OrderTimeout)
      else if SaysDelayed(yes.response) || SaysDelayed(no.response) then Some(OrderDelayed)
      else if SaysRefused(yes.response) || SaysRefused(no.response) then Some(OrderRejected)
      else if limits.maxLegSkew > 0 && !(no.at - limits.maxLegSkew <= yes.at <= no.at + limits.maxLegSkew) then
        Some(LegSkewExceeded)
      else None
  {
    TakenIs(yes.response);
    TakenIs(no.response);
    hide IsDelayed, IsRefused, SaysDelayed, SaysRefused;
  }

  lemma JudgedCarries(yes: LegAnswer, no: LegAnswer, yesRecord: LegRecord, noRecord: LegRecord)
    ensures var orders := Judged(yes, no, yesRecord, noRecord);
      Carries(orders.0, yes, no, yes, yesRecord) && Carries(orders.1, yes, no, no, noRecord)
  {
  }

  lemma RecordsAre(yes: LegAnswer, no: LegAnswer, yesRecord: LegRecord, noRecord: LegRecord, exit: Exit)
    requires exit.Done? ==> yes.Answered? && no.Answered?
    ensures Records(RecordCalls(yes, no, yesRecord, noRecord, exit), yes, no, yesRecord, noRecord, exit)
  {
  }

  lemma BuysAre(terms: Terms, yes: LegRecord, no: LegRecord, rest: seq<VenueCall>)
    requires forall k :: 0 <= k < |rest| ==> !rest[k].Buy?
    ensures BuysLegOnce(BuysOf(terms, yes, no) + rest, Yes, yes, terms.size, terms.yesPrice)
    ensures BuysLegOnce(BuysOf(terms, yes, no) + rest, No, no, terms.size, terms.noPrice)
  {
    var buys := BuysOf(terms, yes, no);
    var calls := buys + rest;
    assert MustAsk(yes) ==> calls[0] == Buy(Yes, terms.size, terms.yesPrice, yes.nonce);
    assert MustAsk(no) ==> calls[|buys| - 1] == Buy(No, terms.size, terms.noPrice, no.nonce);
  }

  lemma RequestsAre(exit: Exit, env: Environment, end: Paired, r: AttemptResult, sent: seq<VenueCall>,
      calls: seq<VenueCall>)
    requires EndsAs(exit, env, end, r, sent, calls)
    ensures Tells(r, end, exit, env) && sent <= calls
    ensures ClosesWith(calls[|sent|..], end, r, if exit.UnwindLeg? then exit.size else 0.0, env.unwindPrice)
    ensures forall k :: |sent| <= k < |calls| ==> !calls[k].Buy?
  {
    if env.unwindAnswer.UnwindAnswered? {
      TakenIs(env.unwindAnswer.response);
    }
    hide IsSuccessful, Taken;
    assert calls[|sent|..] == Requests(exit, r.yesOrder, r.noOrder, env.unwindPrice);
  }

  /** A leg that need not be asked for is answered locally as taken, any other as the venue answers. */
  lemma SettledAs(record: LegRecord, answer: LegAnswer)
    ensures MustAsk(record) ==> Settle(record, answer) == answer
    ensures !MustAsk(record) ==>
      && Settle(record, answer).Answered? && Taken(Settle(record, answer).response)
      && KnownId(Settle(record, answer), record) == record.orderId
  {
  }

  /** One paired run: the runner together with the failure recovery built for it. */
  class PairedRun {
    const lifecycle: ExecutionLifecycle
    const start: Paired
    const yesRecord: LegRecord
    const noRecord: LegRecord
    /** Venue requests, calls on the idempotency store, and tracked order ids, as issued so far. */
    var calls: seq<VenueCall>
    var recordCalls: seq<Op>
    var trackedOrderIds: seq<string>
    /** The accepted events of this run, and its id's log entries from before it. */
    ghost var steps: seq<Step>
    ghost var reached: Paired
    ghost const before: seq<StoredEvent>

    constructor (lifecycle: ExecutionLifecycle, id: string, terms: Terms, now: int, yes: LegRecord, no: LegRecord)
      requires Coherent(lifecycle.active, lifecycle.log)
      ensures this.lifecycle == lifecycle && start == Initial(id, terms, now)
      ensures yesRecord == yes && noRecord == no
      ensures calls == [] && recordCalls == [] && steps == [] && reached == start && before == Mine(lifecycle.log, id)
      ensures Tracks(start, steps, reached, before, lifecycle.log, lifecycle.active)
    {
      this.lifecycle := lifecycle;
      start := Initial(id, terms, now);
      yesRecord, noRecord := yes, no;
      calls, recordCalls, trackedOrderIds := [], [], [];
      steps, reached := [], Initial(id, terms, now);
      before := Mine(lifecycle.log, id);
    }

    /** Every call is shown to be one the table accepts, so no transition of a run throws. */
    method Fire(current: Paired, event: Event) returns (next: Paired)
      requires Tracks(start, steps, reached, before, lifecycle.log, lifecycle.active)
      requires current == reached && current.id == start.id && !event.BreakUnwind?
      requires !Terminal(current.state) && Allowed(current.state, event)
      modifies this`steps, this`reached, lifecycle
      ensures Tracks(start, steps, reached, before, lifecycle.log, lifecycle.active)
      ensures next == Apply(current.(lastUpdated := event.at), event) && next.id == start.id
      ensures reached == next
      ensures EventsIn(steps) == old(EventsIn(steps)) + [event]
    {
      ghost var log, active := lifecycle.log, lifecycle.active;
      var r := lifecycle.Transition(current, event);
      next := r.value;
      TracksOn(start, steps, current, before, log, active, event, next, lifecycle.log, lifecycle.active);
      EventsPush(steps, Step(event, next));
      steps, reached := steps + [Step(event, next)], next;
    }

    /** Suspends this run while others move. */
    method Await(others: Others)
      requires Tracks(start, steps, reached, before, lifecycle.log, lifecycle.active)
      requires Foreign(others, start.id)
      modifies lifecycle
      ensures Tracks(start, steps, reached, before, lifecycle.log, lifecycle.active)
    {
      lifecycle.Interleave(start.id, others);
    }

    method MarkBothFailed(at: int)
      modifies this`recordCalls
      ensures recordCalls == old(recordCalls) + [Op.Fail(yesRecord.key, at), Op.Fail(noRecord.key, at)]
    {
      recordCalls := recordCalls + [Op.Fail(yesRecord.key, at)];
      recordCalls := recordCalls + [Op.Fail(noRecord.key, at)];
    }

    method CancelLeg(leg: Leg, order: Option<OrderResponse>)
      modifies this`calls
      ensures calls == old(calls) + [CancelOf(leg, order)]
    {
      calls := calls + [if Named(OrderIdOf(order)).Some? then CancelOrder(OrderIdOf(order).value)
        else CancelMarket(leg)];
    }

    method BeginCancel(current: Paired, at: int) returns (next: Paired)
      requires Tracks(start, steps, reached, before, lifecycle.log, lifecycle.active)
      requires current == reached && current.id == start.id
      requires Cancellable(current.state) || current.state.Cancelling?
      modifies this`steps, this`reached, lifecycle
      ensures Tracks(start, steps, reached, before, lifecycle.log, lifecycle.active)
      ensures next == reached && next.id == start.id && next.state.Cancelling?
      ensures next.yesFilled == current.yesFilled && next.noFilled == current.noFilled
      ensures EventsIn(steps) == old(EventsIn(steps)) + if current.state.Cancelling? then [] else [StartCancel(at)]
    {
      hide EventsIn, Tracks;
      next := current;
      if !current.state.Cancelling? {
        next := Fire(current, StartCancel(at));
      }
    }

    /** Neither leg counts as filled: cancel both and fail. */
    method FailWithCancel(current: Paired, at: int, reason: Reason,
        yesOrder: Option<OrderResponse>, noOrder: Option<OrderResponse>, env: Environment)
      returns (r: AttemptResult)
      requires Tracks(start, steps, reached, before, lifecycle.log, lifecycle.active)
      requires current == reached && current.id == start.id && AllForeign(env, start.id)
      requires Cancellable(current.state) || current.state.Cancelling?
      modifies this`calls, this`recordCalls, this`steps, this`reached, lifecycle
      ensures Tracks(start, steps, reached, before, lifecycle.log, lifecycle.active)
      ensures reached.id == start.id
      ensures r == AttemptResult(Verdict.Failed(reason), yesOrder, noOrder, reached.state)
      ensures reached.state == Label.Failed
      ensures reached.yesFilled == current.yesFilled && reached.noFilled == current.noFilled
      ensures calls == old(calls) + [CancelOf(Yes, yesOrder), CancelOf(No, noOrder)]
      ensures recordCalls == old(recordCalls) + [Op.Fail(yesRecord.key, at), Op.Fail(noRecord.key, at)]
      ensures !current.state.Cancelling? ==>
        EventsIn(steps) == old(EventsIn(steps)) + ExitEvents(CancelBoth(reason, at), env)
    {
      hide EventsIn, Tracks, CancelOf, UnwindEvents;
      var next := BeginCancel(current, at);
      CancelLeg(Yes, yesOrder);
      CancelLeg(No, noOrder);
      Await(env.whileCancelling);
      MarkBothFailed(at);
      next := Fire(next, Event.Fail(at, reason));
      return AttemptResult(Verdict.Failed(reason), yesOrder, noOrder, next.state);
    }

    /** Sells what the filled leg bought; never leaves the unwind in a state without a way out. */
    method HandleUnwind(current: Paired, filledLeg: Leg, size: real, env: Environment)
      returns (next: Paired, ok: bool)
      requires Tracks(start, steps, reached, before, lifecycle.log, lifecycle.active)
      requires current == reached && current.id == start.id && AllForeign(env, start.id)
      requires current.state == PartialFill
      modifies this`calls, this`steps, this`reached, lifecycle
      ensures Tracks(start, steps, reached, before, lifecycle.log, lifecycle.active)
      ensures reached.id == start.id
      ensures next == reached
      ensures ok <==> SaleWorked(env)
      ensures reached.state == if ok then Complete else Label.Failed
      ensures reached.yesFilled == current.yesFilled && reached.noFilled == current.noFilled
      ensures calls == old(calls) + [Sell(filledLeg, size, env.unwindPrice)]
      ensures EventsIn(steps) == old(EventsIn(steps)) + UnwindEvents(env)
    {
      hide EventsIn, Tracks, IsSuccessful, SaleEvents;
      var state := Fire(current, StartUnwind(env.unwindAt));
      calls := calls + [Sell(filledLeg, size, env.unwindPrice)];
      Await(env.whileUnwinding);
      ok := env.unwindAnswer.UnwindAnswered? && IsSuccessful(env.unwindAnswer.response);
      next := CloseUnwind(state, ok, env.unwoundAt);
    }

    /** A sale that did not succeed fails the execution instead of leaving it stuck in a broken unwind. */
    method CloseUnwind(current: Paired, ok: bool, at: int) returns (next: Paired)
      requires Tracks(start, steps, reached, before, lifecycle.log, lifecycle.active)
      requires current == reached && current.id == start.id && current.state.Unwinding?
      modifies this`steps, this`reached, lifecycle
      ensures Tracks(start, steps, reached, before, lifecycle.log, lifecycle.active)
      ensures next == reached && next.id == start.id
      ensures next.state == if ok then Complete else Label.Failed
      ensures next.yesFilled == current.yesFilled && next.noFilled == current.noFilled
      ensures EventsIn(steps) == old(EventsIn(steps)) + SaleEvents(ok, at)
    {
      hide EventsIn, Tracks;
      if ok {
        var state := Fire(current, EndUnwind(at));
        next := Fire(state, Finish(at));
      } else {
        next := Fire(current, Event.Fail(at, UnwindBroke));
      }
    }

    method MarkPartialFill(current: Paired, at: int, filledLeg: Leg) returns (next: Paired)
      requires Tracks(start, steps, reached, before, lifecycle.log, lifecycle.active)
      requires current == reached && current.id == start.id
      requires current.state.BothPending? || current.state.BothAcked?
      requires !current.yesFilled && !current.noFilled
      modifies this`steps, this`reached, lifecycle
      ensures Tracks(start, steps, reached, before, lifecycle.log, lifecycle.active)
      ensures next == reached && next.id == start.id && next.state.PartialFill?
      ensures next.yesFilled == filledLeg.Yes? && next.noFilled == filledLeg.No?
      ensures EventsIn(steps)
        == old(EventsIn(steps)) + [if filledLeg.Yes? then FillYes(at) else FillNo(at), FillPart(at)]
    {
      hide EventsIn, Tracks;
      var state := Fire(current, if filledLeg.Yes? then FillYes(at) else FillNo(at));
      next := Fire(state, FillPart(at));
    }

    /** One leg filled: cancel the other, then unwind the filled one. */
    method HandlePartialFill(current: Paired, at: int, filledLeg: Leg, size: real,
        yesOrder: Option<OrderResponse>, noOrder: Option<OrderResponse>, env: Environment)
      returns (r: AttemptResult)
      requires Tracks(start, steps, reached, before, lifecycle.log, lifecycle.active)
      requires current == reached && current.id == start.id && AllForeign(env, start.id)
      requires current.state.BothPending? || current.state.BothAcked?
      requires !current.yesFilled && !current.noFilled
      modifies this`calls, this`recordCalls, this`steps, this`reached, lifecycle
      ensures Tracks(start, steps, reached, before, lifecycle.log, lifecycle.active)
      ensures reached.id == start.id
      ensures r.verdict == Verdict.Failed(if SaleWorked(env) then PartiallyFilled else UnwindBroke)
        && r.state == reached.state
      ensures r.yesOrder == yesOrder && r.noOrder == noOrder
      ensures reached.state == if SaleWorked(env) then Complete else Label.Failed
      ensures reached.yesFilled == filledLeg.Yes? && reached.noFilled == filledLeg.No?
      ensures calls == old(calls)
        + [CancelOf(OtherLeg(filledLeg), if filledLeg.Yes? then noOrder else yesOrder),
          Sell(filledLeg, size, env.unwindPrice)]
      ensures recordCalls == old(recordCalls) + [Op.Fail(yesRecord.key, at), Op.Fail(noRecord.key, at)]
      ensures EventsIn(steps) == old(EventsIn(steps)) + ExitEvents(UnwindLeg(filledLeg, size, at), env)
    {
      hide EventsIn, Tracks;
      var unfilledLeg := if filledLeg.Yes? then No else Yes;
      var unfilledOrder := if filledLeg.Yes? then noOrder else yesOrder;
      var state := MarkPartialFill(current, at, filledLeg);
      CancelLeg(unfilledLeg, unfilledOrder);
      Await(env.whileCancelling);
      MarkBothFailed(at);
      var ok;
      state, ok := HandleUnwind(state, filledLeg, size, env);
      var reason := if ok then PartiallyFilled else UnwindBroke;
      return AttemptResult(Verdict.Failed(reason), yesOrder, noOrder, state.state);
    }

    method HandleFailure(current: Paired, at: int, size: real, reason: Reason,
        yesOrder: Option<OrderResponse>, noOrder: Option<OrderResponse>, env: Environment)
      returns (r: AttemptResult)
      requires Tracks(start, steps, reached, before, lifecycle.log, lifecycle.active)
      requires current == reached && current.id == start.id && AllForeign(env, start.id)
      requires current.state.BothPending? || current.state.BothAcked?
      requires !current.yesFilled && !current.noFilled
      modifies this`calls, this`recordCalls, this`steps, this`reached, lifecycle
      ensures Tracks(start, steps, reached, before, lifecycle.log, lifecycle.active)
      ensures reached.id == start.id
      ensures r.verdict.Failed? && r.state == reached.state
      ensures reached.state == LabelOf(ByOrders(yesOrder, noOrder, reason, size, at), env)
      ensures r.verdict == VerdictOf(ByOrders(yesOrder, noOrder, reason, size, at), env)
      ensures calls == old(calls)
        + Requests(ByOrders(yesOrder, noOrder, reason, size, at), yesOrder, noOrder, env.unwindPrice)
      ensures recordCalls == old(recordCalls) + [Op.Fail(yesRecord.key, at), Op.Fail(noRecord.key, at)]
      ensures reached.yesFilled == (PartialLeg(yesOrder, noOrder) == Some(Yes))
      ensures reached.noFilled == (PartialLeg(yesOrder, noOrder) == Some(No))
      ensures r.yesOrder == yesOrder && r.noOrder == noOrder
      ensures EventsIn(steps) == old(EventsIn(steps)) + ExitEvents(ByOrders(yesOrder, noOrder, reason, size, at), env)
    {
      hide EventsIn, Tracks;
      var filledLeg := PartialLeg(yesOrder, noOrder);
      if filledLeg.None? {
        r := FailWithCancel(current, at, reason, yesOrder, noOrder, env);
      } else {
        r := HandlePartialFill(current, at, filledLeg.value, size, yesOrder, noOrder, env);
      }
    }

    method FillBoth(current: Paired, at: int) returns (next: Paired)
      requires Tracks(start, steps, reached, before, lifecycle.log, lifecycle.active)
      requires current == reached && current.id == start.id && current.state.BothAcked?
      requires !current.yesFilled && !current.noFilled
      modifies this`steps, this`reached, lifecycle
      ensures Tracks(start, steps, reached, before, lifecycle.log, lifecycle.active)
      ensures next == reached && next.id == start.id && next.state.BothFilled? && next.yesFilled && next.noFilled
      ensures EventsIn(steps) == old(EventsIn(steps)) + [FillYes(at), FillNo(at)]
    {
      hide EventsIn, Tracks;
      var state := Fire(current, FillYes(at));
      next := Fire(state, FillNo(at));
    }

    /** Both legs filled: close the execution and confirm the records. */
    method CompleteBoth(current: Paired, at: int, yesOrder: Option<OrderResponse>,
          noOrder: Option<OrderResponse>, ids: Ids)
      returns (r: AttemptResult)
      requires Tracks(start, steps, reached, before, lifecycle.log, lifecycle.active)
      requires current == reached && current.id == start.id && current.state.BothAcked?
      requires !current.yesFilled && !current.noFilled
      modifies this`recordCalls, this`steps, this`reached, lifecycle
      ensures Tracks(start, steps, reached, before, lifecycle.log, lifecycle.active)
      ensures reached.id == start.id
      ensures r == AttemptResult(Verdict.Submitted, yesOrder, noOrder, reached.state)
      ensures reached.state == Complete && reached.yesFilled && reached.noFilled
      ensures recordCalls == old(recordCalls) + Confirmations(yesRecord, ids.yes, at)
        + Confirmations(noRecord, ids.no, at)
      ensures EventsIn(steps) == old(EventsIn(steps)) + [FillYes(at), FillNo(at), Finish(at)]
    {
      hide EventsIn, Tracks, Confirmations;
      var state := FillBoth(current, at);
      state := Fire(state, Finish(at));
      recordCalls := recordCalls + Confirmations(yesRecord, ids.yes, at);
      recordCalls := recordCalls + Confirmations(noRecord, ids.no, at);
      return AttemptResult(Verdict.Submitted, yesOrder, noOrder, state.state);
    }

    /** The exit of a completed pair. */
    method ExitDone(current: Paired, at: int, yesOrder: Option<OrderResponse>, noOrder: Option<OrderResponse>,
          ids: Ids, ghost env: Environment)
      returns (r: AttemptResult)
      requires Tracks(start, steps, reached, before, lifecycle.log, lifecycle.active)
      requires current == reached && current.id == start.id && current.state.BothAcked?
      requires !current.yesFilled && !current.noFilled
      modifies this`recordCalls, this`steps, this`reached, lifecycle
      ensures Tracks(start, steps, reached, before, lifecycle.log, lifecycle.active)
      ensures EndsAs(Done(at), env, reached, r, calls, calls) && r.yesOrder == yesOrder && r.noOrder == noOrder
      ensures recordCalls == old(recordCalls) + Closing(Done(at), yesRecord, noRecord, ids)
      ensures EventsIn(steps) == old(EventsIn(steps)) + ExitEvents(Done(at), env)
    {
      hide EventsIn, Tracks, Confirmations;
      r := CompleteBoth(current, at, yesOrder, noOrder, ids);
    }

    /** The exit of a pair judged by its responses. */
    method ExitByOrders(current: Paired, at: int, size: real, reason: Reason,
        yesOrder: Option<OrderResponse>, noOrder: Option<OrderResponse>, ghost ids: Ids, env: Environment)
      returns (r: AttemptResult)
      requires Tracks(start, steps, reached, before, lifecycle.log, lifecycle.active)
      requires current == reached && current.id == start.id && AllForeign(env, start.id)
      requires current.state.BothPending? || current.state.BothAcked?
      requires !current.yesFilled && !current.noFilled
      modifies this`calls, this`recordCalls, this`steps, this`reached, lifecycle
      ensures Tracks(start, steps, reached, before, lifecycle.log, lifecycle.active)
      ensures EndsAs(ByOrders(yesOrder, noOrder, reason, size, at), env, reached, r, old(calls), calls)
      ensures r.yesOrder == yesOrder && r.noOrder == noOrder
      ensures recordCalls == old(recordCalls)
        + Closing(ByOrders(yesOrder, noOrder, reason, size, at), yesRecord, noRecord, ids)
      ensures EventsIn(steps) == old(EventsIn(steps)) + ExitEvents(ByOrders(yesOrder, noOrder, reason, size, at), env)
    {
      hide EventsIn, Tracks, PartialLeg, CancelOf;
      r := HandleFailure(current, at, size, reason, yesOrder, noOrder, env);
    }

    /** The exit of a pair of which one leg alone was seen to match. */
    method ExitUnwind(current: Paired, at: int, leg: Leg, size: real,
        yesOrder: Option<OrderResponse>, noOrder: Option<OrderResponse>, ghost ids: Ids, env: Environment)
      returns (r: AttemptResult)
      requires Tracks(start, steps, reached, before, lifecycle.log, lifecycle.active)
      requires current == reached && current.id == start.id && AllForeign(env, start.id)
      requires current.state.BothAcked? && !current.yesFilled && !current.noFilled
      modifies this`calls, this`recordCalls, this`steps, this`reached, lifecycle
      ensures Tracks(start, steps, reached, before, lifecycle.log, lifecycle.active)
      ensures EndsAs(UnwindLeg(leg, size, at), env, reached, r, old(calls), calls) && r.yesOrder == yesOrder
        && r.noOrder == noOrder
      ensures recordCalls == old(recordCalls) + Closing(UnwindLeg(leg, size, at), yesRecord, noRecord, ids)
      ensures EventsIn(steps) == old(EventsIn(steps)) + ExitEvents(UnwindLeg(leg, size, at), env)
    {
      hide EventsIn, Tracks, CancelOf;
      r := HandlePartialFill(current, at, leg, size, yesOrder, noOrder, env);
    }

    /** Both legs are acknowledged: wait for the fills, or count them as filled when nothing reports them. */
    method AwaitFills(current: Paired, ackedAt: int, limits: Limits, yesOrder: Option<OrderResponse>,
          noOrder: Option<OrderResponse>, ids: Ids, env: Environment)
      returns (r: AttemptResult)
      requires Tracks(start, steps, reached, before, lifecycle.log, lifecycle.active)
      requires current == reached && current.id == start.id && AllForeign(env, start.id)
      requires current.state.BothAcked? && !current.yesFilled && !current.noFilled
      modifies this`calls, this`recordCalls, this`steps, this`reached, lifecycle
      ensures Tracks(start, steps, reached, before, lifecycle.log, lifecycle.active)
      ensures r.yesOrder == yesOrder && r.noOrder == noOrder
      ensures var exit := AfterAcks(yesOrder, noOrder, ids, ackedAt, limits, env, start.terms.size);
        EndsAs(exit, env, reached, r, old(calls), calls)
        && recordCalls == old(recordCalls) + Closing(exit, yesRecord, noRecord, ids)
      ensures EventsIn(steps) == old(EventsIn(steps))
        + ExitEvents(AfterAcks(yesOrder, noOrder, ids, ackedAt, limits, env, start.terms.size), env)
    {
      hide EventsIn, Tracks, EndsAs, Closing, AfterFills, ByOrders;
      var remaining := if limits.fillTimeout > 0 then MaxInt(0, limits.fillTimeout - (env.checkAt - ackedAt)) else 0;
      if !limits.requiresUserChannel || remaining <= 0 {
        r := ExitDone(current, env.finishAt, yesOrder, noOrder, ids, env);
      } else if Named(ids.yes).None? || Named(ids.no).None? {
        r := ExitByOrders(current, env.finishAt, start.terms.size, OrderFailed, yesOrder, noOrder, ids, env);
      } else {
        Await(env.whileFilling);
        r := ObserveFills(current, yesOrder, noOrder, ids, env);
      }
    }

    /** What the two fill outcomes mean for the run. */
    method ObserveFills(current: Paired, yesOrder: Option<OrderResponse>, noOrder: Option<OrderResponse>,
          ids: Ids, env: Environment)
      returns (r: AttemptResult)
      requires Tracks(start, steps, reached, before, lifecycle.log, lifecycle.active)
      requires current == reached && current.id == start.id && AllForeign(env, start.id)
      requires current.state.BothAcked? && !current.yesFilled && !current.noFilled
      modifies this`calls, this`recordCalls, this`steps, this`reached, lifecycle
      ensures Tracks(start, steps, reached, before, lifecycle.log, lifecycle.active)
      ensures r.yesOrder == yesOrder && r.noOrder == noOrder
      ensures var exit := AfterFills(yesOrder, noOrder, env, start.terms.size);
        EndsAs(exit, env, reached, r, old(calls), calls)
        && recordCalls == old(recordCalls) + Closing(exit, yesRecord, noRecord, ids)
      ensures EventsIn(steps) == old(EventsIn(steps))
        + ExitEvents(AfterFills(yesOrder, noOrder, env, start.terms.size), env)
    {
      hide EventsIn, Tracks, EndsAs, Closing, ByOrders;
      var filledAt := MaxInt(env.yesOutcome.observedAt, env.noOutcome.observedAt);
      var yesMatched, noMatched := env.yesOutcome.sizeMatched, env.noOutcome.sizeMatched;
      if env.yesOutcome.fullyFilled && env.noOutcome.fullyFilled {
        r := ExitDone(current, filledAt, yesOrder, noOrder, ids, env);
      } else if yesMatched > 0.0 && noMatched <= 0.0 {
        r := ExitUnwind(current, filledAt, Yes, Min(yesMatched, start.terms.size), yesOrder, noOrder, ids, env);
      } else if noMatched > 0.0 && yesMatched <= 0.0 {
        r := ExitUnwind(current, filledAt, No, Min(noMatched, start.terms.size), yesOrder, noOrder, ids, env);
      } else {
        var reason := if env.yesOutcome.timedOut || env.noOutcome.timedOut then OrderTimeout else OrderFailed;
        r := ExitByOrders(current, filledAt, start.terms.size, reason, yesOrder, noOrder, ids, env);
      }
    }

    method AckBoth(current: Paired, yesAt: int, noAt: int, yesOrder: Option<OrderResponse>,
          noOrder: Option<OrderResponse>)
      returns (next: Paired)
      requires Tracks(start, steps, reached, before, lifecycle.log, lifecycle.active)
      requires current == reached && current.id == start.id && current.state.BothPending?
      requires !current.yesAcked && !current.noAcked && !current.yesFilled && !current.noFilled
      modifies this`steps, this`reached, lifecycle
      ensures Tracks(start, steps, reached, before, lifecycle.log, lifecycle.active)
      ensures next == reached && next.id == start.id && next.state.BothAcked? && !next.yesFilled && !next.noFilled
      ensures next.yesOrder == yesOrder && next.noOrder == noOrder
      ensures EventsIn(steps) == old(EventsIn(steps)) + [AckYes(yesAt, yesOrder), AckNo(noAt, noOrder)]
    {
      hide EventsIn, Tracks;
      var state := Fire(current, AckYes(yesAt, yesOrder));
      next := Fire(state, AckNo(noAt, noOrder));
    }

    /** Both submissions were answered: track and save their orders. */
    method SaveAcks(yes: LegAnswer, no: LegAnswer) returns (ids: Ids)
      requires yes.Answered? && no.Answered?
      modifies this`recordCalls, this`trackedOrderIds
      ensures ids == IdsOf(yes, no, yesRecord, noRecord) && trackedOrderIds == Tracked(ids)
      ensures recordCalls == old(recordCalls) + Acknowledgements(yes, no, yesRecord, noRecord, ids)
    {
      ids := Ids(Or(OrderIdOf(yes.response), yesRecord.orderId), Or(OrderIdOf(no.response), noRecord.orderId));
      trackedOrderIds := [];
      if Named(ids.yes).Some? {
        trackedOrderIds := trackedOrderIds + [ids.yes.value];
      }
      if Named(ids.no).Some? {
        trackedOrderIds := trackedOrderIds + [ids.no.value];
      }
      recordCalls := recordCalls + [Save(Acked(yesRecord, ids.yes, yes.at))];
      recordCalls := recordCalls + [Save(Acked(noRecord, ids.no, no.at))];
    }

    /** Both submissions were answered: record and acknowledge them, check them, then await the fills. */
    method Acknowledge(current: Paired, yes: LegAnswer, no: LegAnswer, limits: Limits, env: Environment)
      returns (r: AttemptResult)
      requires Tracks(start, steps, reached, before, lifecycle.log, lifecycle.active)
      requires current == reached && current.id == start.id && AllForeign(env, start.id)
      requires current.state.BothPending? && !current.yesAcked && !current.noAcked
      requires !current.yesFilled && !current.noFilled
      requires yes.Answered? && no.Answered?
      modifies this`calls, this`recordCalls, this`steps, this`reached, this`trackedOrderIds, lifecycle
      ensures Tracks(start, steps, reached, before, lifecycle.log, lifecycle.active)
      ensures trackedOrderIds == Tracked(IdsOf(yes, no, yesRecord, noRecord))
      ensures var ids := IdsOf(yes, no, yesRecord, noRecord);
        var exit := AfterAnswers(yes, no, ids, limits, env, start.terms.size);
        EndsAs(exit, env, reached, r, old(calls), calls)
        && r.yesOrder == WithOrderId(yes.response, ids.yes) && r.noOrder == WithOrderId(no.response, ids.no)
        && recordCalls == old(recordCalls) + Acknowledgements(yes, no, yesRecord, noRecord, ids)
            + Closing(exit, yesRecord, noRecord, ids)
      ensures var ids := IdsOf(yes, no, yesRecord, noRecord);
        EventsIn(steps) == old(EventsIn(steps)) + AckEvents(yes, no, ids)
          + ExitEvents(AfterAnswers(yes, no, ids, limits, env, start.terms.size), env)
    {
      hide EventsIn, Tracks, EndsAs, Closing, ByOrders, AfterAcks, Acknowledgements, IdsOf, WithOrderId, AckProblem,
        Tracked;
      var ids := SaveAcks(yes, no);
      var yesOrder, noOrder := WithOrderId(yes.response, ids.yes), WithOrderId(no.response, ids.no);
      var state := AckBoth(current, yes.at, no.at, yesOrder, noOrder);
      var ackedAt := MaxInt(yes.at, no.at);
      var problem := AckProblem(yes, no, limits, env.submitAt);
      if problem.Some? {
        r := ExitByOrders(state, ackedAt, start.terms.size, problem.value, yesOrder, noOrder, ids, env);
      } else {
        r := AwaitFills(state, ackedAt, limits, yesOrder, noOrder, ids, env);
      }
    }

    /** At least one submission was rejected or timed out. */
    method HandleSubmitFailure(current: Paired, yes: LegAnswer, no: LegAnswer, env: Environment)
      returns (r: AttemptResult)
      requires Tracks(start, steps, reached, before, lifecycle.log, lifecycle.active)
      requires current == reached && current.id == start.id && AllForeign(env, start.id)
      requires current.state.BothPending? && !current.yesFilled && !current.noFilled
      requires !yes.Answered? || !no.Answered?
      modifies this`calls, this`recordCalls, this`steps, this`reached, lifecycle
      ensures Tracks(start, steps, reached, before, lifecycle.log, lifecycle.active)
      ensures r.yesOrder == ResponseOf(yes) && r.noOrder == ResponseOf(no)
      ensures var exit := ByOrders(ResponseOf(yes), ResponseOf(no), SubmitReason(yes, no), start.terms.size,
        env.settledAt);
        EndsAs(exit, env, reached, r, old(calls), calls)
        && recordCalls == old(recordCalls) + Closing(exit, yesRecord, noRecord, Ids(None, None))
      ensures EventsIn(steps) == old(EventsIn(steps))
        + ExitEvents(ByOrders(ResponseOf(yes), ResponseOf(no), SubmitReason(yes, no), start.terms.size, env.settledAt),
          env)
    {
      hide EventsIn, Tracks, EndsAs, Closing, ByOrders;
      var yesResponse := if yes.Answered? then yes.response else None;
      var noResponse := if no.Answered? then no.response else None;
      var reason := if yes.OutOfTime? || no.OutOfTime? then OrderTimeout else OrderFailed;
      r := ExitByOrders(current, env.settledAt, start.terms.size, reason, yesResponse, noResponse, Ids(None, None),
        env);
    }

    method SubmitBoth(now: int, submitAt: int) returns (next: Paired)
      requires Tracks(start, steps, reached, before, lifecycle.log, lifecycle.active)
      requires reached == start
      modifies this`steps, this`reached, lifecycle
      ensures Tracks(start, steps, reached, before, lifecycle.log, lifecycle.active)
      ensures next == reached && next.id == start.id && next.state.BothPending?
      ensures !next.yesAcked && !next.noAcked && !next.yesFilled && !next.noFilled
      ensures EventsIn(steps) == old(EventsIn(steps)) + SubmitEvents(now, submitAt)
    {
      hide EventsIn;
      var state := Fire(start, SubmitStarted(now));
      state := Fire(state, SubmitYes(submitAt));
      next := Fire(state, SubmitNo(submitAt));
    }

    /**
     * The whole protocol. Whatever the environment does, no transition throws, the execution is over and
     * out of the live map, and its end, its result, the venue requests and the record calls are those of
     * the one exit that the answers, the times and the fills call for.
     */
    method Execute(now: int, limits: Limits, env: Environment) returns (r: AttemptResult, ghost exit: Exit)
      requires Tracks(start, steps, reached, before, lifecycle.log, lifecycle.active)
      requires steps == []
      requires reached == start && calls == [] && recordCalls == [] && AllForeign(env, start.id)
      modifies this`calls, this`recordCalls, this`steps, this`reached, this`trackedOrderIds, lifecycle
      ensures Tracks(start, steps, reached, before, lifecycle.log, lifecycle.active)
      ensures start.id !in lifecycle.active
      ensures var yes, no := Settle(yesRecord, env.yesAnswer), Settle(noRecord, env.noAnswer);
        exit == ExitOf(yes, no, yesRecord, noRecord, limits, env, start.terms.size)
        && recordCalls == RecordCalls(yes, no, yesRecord, noRecord, exit)
      ensures EndsAs(exit, env, reached, r, BuysOf(start.terms, yesRecord, noRecord), calls)
      ensures var yes, no := Settle(yesRecord, env.yesAnswer), Settle(noRecord, env.noAnswer);
        EventsIn(steps) == RunEvents(yes, no, yesRecord, noRecord, now, exit, env)
      ensures BuysLegOnce(calls, Yes, yesRecord, start.terms.size, start.terms.yesPrice)
      ensures BuysLegOnce(calls, No, noRecord, start.terms.size, start.terms.noPrice)
      ensures Sends(calls, reached, r, if exit.UnwindLeg? then exit.size else 0.0, env.unwindPrice)
      ensures Tells(r, reached, exit, env)
      ensures var yes, no := Settle(yesRecord, env.yesAnswer), Settle(noRecord, env.noAnswer);
        && Decides(exit, yes, no, yesRecord, noRecord, r.yesOrder, r.noOrder, limits, env, start.terms.size)
        && Carries(r.yesOrder, yes, no, yes, yesRecord) && Carries(r.noOrder, yes, no, no, noRecord)
        && Records(recordCalls, yes, no, yesRecord, noRecord, exit)
        && Fires(EventsIn(steps), yes, no, r, now, exit, env)
    {
      hide Fires;
      hide EventsIn, Tracks, EndsAs, Closing, ByOrders, AfterAnswers, Acknowledgements, IdsOf, BuysOf, Settle;
      NoEvents();
      var state := SubmitBoth(now, env.submitAt);
      assert EventsIn(steps) == SubmitEvents(now, env.submitAt);
      ghost var sent := BuysOf(start.terms, yesRecord, noRecord);
      calls := calls + BuysOf(start.terms, yesRecord, noRecord);
      assert calls == sent;
      Await(env.whileSubmitting);
      var yes, no := Settle(yesRecord, env.yesAnswer), Settle(noRecord, env.noAnswer);
      exit := ExitOf(yes, no, yesRecord, noRecord, limits, env, start.terms.size);
      if yes.Answered? && no.Answered? {
        r := Acknowledge(state, yes, no, limits, env);
      } else {
        r := HandleSubmitFailure(state, yes, no, env);
      }
      OverIsGone(start, steps, before, lifecycle.log, lifecycle.active, exit, env, reached, r, sent, calls);
      InPlainTerms(yes, no, limits, env, r, exit);
      EventsAreFired(yes, no, yesRecord, noRecord, now, exit, env, r);
    }

    /** What the run's end means in the venue's and the policy's own terms. */
    lemma InPlainTerms(yes: LegAnswer, no: LegAnswer, limits: Limits, env: Environment, r: AttemptResult, exit: Exit)
      requires exit == ExitOf(yes, no, yesRecord, noRecord, limits, env, start.terms.size)
      requires EndsAs(exit, env, reached, r, BuysOf(start.terms, yesRecord, noRecord), calls)
      requires (r.yesOrder, r.noOrder) == Judged(yes, no, yesRecord, noRecord)
      requires recordCalls == RecordCalls(yes, no, yesRecord, noRecord, exit)
      ensures BuysLegOnce(calls, Yes, yesRecord, start.terms.size, start.terms.yesPrice)
      ensures BuysLegOnce(calls, No, noRecord, start.terms.size, start.terms.noPrice)
      ensures Sends(calls, reached, r, if exit.UnwindLeg? then exit.size else 0.0, env.unwindPrice)
      ensures Tells(r, reached, exit, env)
      ensures Decides(exit, yes, no, yesRecord, noRecord, r.yesOrder, r.noOrder, limits, env, start.terms.size)
      ensures Carries(r.yesOrder, yes, no, yes, yesRecord) && Carries(r.noOrder, yes, no, no, noRecord)
      ensures Records(recordCalls, yes, no, yesRecord, noRecord, exit)
    {
      hide Decides, Carries, Judged, Records, Tells, ClosesWith, BuysLegOnce, RecordCalls;
      var sent := BuysOf(start.terms, yesRecord, noRecord);
      RequestsAre(exit, env, reached, r, sent, calls);
      assert calls == sent + calls[|sent|..];
      BuysAre(start.terms, yesRecord, noRecord, calls[|sent|..]);
      assert forall k :: 0 <= k < |sent| ==> calls[k] == sent[k] && sent[k].Buy?;
      assert OnlyBuys(calls, |sent|);
      ExitIsDecided(yes, no, yesRecord, noRecord, limits, env, start.terms.size);
      JudgedCarries(yes, no, yesRecord, noRecord);
      SubmittedIff(yes, no, yesRecord, noRecord, limits, env, start.terms.size);
      RecordsAre(yes, no, yesRecord, noRecord, exit);
    }
  }
}

/** The tracker of user orders, their trades, and the callers waiting for fills. */
module OrderTracker {
  import opened Prelude

  type Id = string

  datatype Side = Buy | Sell

  /** Statuses by meaning, whatever their letter case; the first four all count as filled. */
  datatype Status = Matched | Filled | Confirmed | Mined | Cancelled | OtherStatus

  datatype OrderState = OrderState(
    marketId: Option<Id>, tokenId: Option<Id>, side: Option<Side>, orderMatched: Option<real>, tradeMatched: real,
    sizeMatched: real, status: Option<Status>, price: Option<real>, lastUpdateMs: int, cancelled: bool)

  datatype OrderUpdate = OrderUpdate(
    marketId: Option<Id>, assetId: Option<Id>, side: Option<Side>, price: Option<real>, sizeMatched: Option<real>,
    status: Option<Status>, cancellationEvent: bool, timestampMs: Option<int>)

  datatype TradeInfo = TradeInfo(
    marketId: Option<Id>, assetId: Option<Id>, side: Option<Side>, price: Option<real>, timestampMs: Option<int>)

  datatype Outcome = Outcome(sizeMatched: real, fullyFilled: bool, cancelled: bool, timedOut: bool, observedAtMs: int)

  datatype Waiter = Waiter(id: nat, desiredSize: real)

  /** What a caller waiting on `order` was told. */
  datatype Answer = Answer(id: nat, order: Id, desiredSize: real, outcome: Outcome)

  datatype Fill = Fill(tokenId: Id, marketId: Id, side: Side, size: real, price: real, timestamp: int)

  /** What has happened: reported matches, trade matches, fills booked in the portfolio, cleanups. */
  datatype LogItem =
    | Reported(order: Id, size: Option<real>)
    | Traded(order: Id, trade: Id, amount: Option<real>)
    | Booked(order: Id, trade: Id, fill: Fill)
    | Cleaned(order: Id)

  /**
   * `timers` holds each pending timeout with the order it was set for; `portfolio`
   * tells whether one is attached, and what follows it is history.
   */
  datatype Tracker = Tracker(
    orders: map<Id, OrderState>, waiters: map<Id, seq<Waiter>>, seen: map<Id, set<Id>>, timers: map<nat, Id>,
    next: nat, portfolio: bool, answered: seq<Answer>, log: seq<LogItem>)

  datatype Move =
    | OrderMessage(order: Id, update: OrderUpdate, now: int)
    | TradeMatch(order: Id, trade: Id, amount: Option<real>, info: TradeInfo, now: int)
    | Wait(order: Id, desiredSize: real, timeoutMs: int, now: int)
    | Timeout(id: nat, now: int)
    | Cleanup(order: Id)

  function Initial(portfolio: bool): Tracker {
    Tracker(map[], map[], map[], map[], 0, portfolio, [], [])
  }

  // ------------------------------------------------------------------ one order's state

  function Blank(marketId: Option<Id>, tokenId: Option<Id>, side: Option<Side>, price: Option<real>,
        now: int): OrderState
  {
    OrderState(marketId, tokenId, side, None, 0.0, 0.0, None, price, now, false)
  }

  predicate IsCancellation(u: OrderUpdate) {
    u.cancellationEvent || u.status == Some(Cancelled)
  }

  predicate IsFilledStatus(status: Option<Status>) {
    status.Some? && (status.value.Matched? || status.value.Filled? || status.value.Confirmed? || status.value.Mined?)
  }

  function AfterOrder(orders: map<Id, OrderState>, order: Id, u: OrderUpdate, now: int): OrderState {
    var p := if order in orders then orders[order] else Blank(None, None, None, None, now);
    var orderMatched := Or(u.sizeMatched, p.orderMatched);
    OrderState(Or(u.marketId, p.marketId), Or(u.assetId, p.tokenId), Or(u.side, p.side), orderMatched, p.tradeMatched,
      Max(orderMatched.GetOr(0.0), p.tradeMatched), Or(u.status, p.status), Or(u.price, p.price),
      u.timestampMs.GetOr(now), p.cancelled || IsCancellation(u))
  }

  function AfterTrade(orders: map<Id, OrderState>, order: Id, amount: real, info: TradeInfo, now: int): OrderState {
    var p := if order in orders then orders[order] else Blank(info.marketId, info.assetId, info.side, info.price, now);
    p.(tradeMatched := p.tradeMatched + amount,
       sizeMatched := Max(p.orderMatched.GetOr(0.0), p.tradeMatched + amount),
       lastUpdateMs := info.timestampMs.GetOr(now))
  }

  predicate Present(x: Option<Id>) {
    x.Some? && x.value != ""
  }

  /** The fill booked for a counted trade, when everything about it is known. */
  function FillOf(state: OrderState, info: TradeInfo, amount: real, now: int): Option<Fill> {
    var token, market, side := Or(state.tokenId, info.assetId), Or(state.marketId, info.marketId),
      Or(state.side, info.side);
    var price := Or(info.price, state.price);
    if Present(token) && Present(market) && side.Some? && price.Some? then
      Some(Fill(token.value, market.value, side.value, amount, price.value, info.timestampMs.GetOr(now)))
    else None
  }

  // ------------------------------------------------------------------ waiters

  function Derive(orders: map<Id, OrderState>, order: Id, desiredSize: real): Option<Outcome> {
    if order !in orders then None
    else
      var s := orders[order];
      if s.sizeMatched >= desiredSize || IsFilledStatus(s.status) then
        Some(Outcome(s.sizeMatched, true, s.cancelled, false, s.lastUpdateMs))
      else if s.cancelled then Some(Outcome(s.sizeMatched, false, true, false, s.lastUpdateMs))
      else None
  }

  function MatchedSize(orders: map<Id, OrderState>, order: Id): real {
    if order in orders then orders[order].sizeMatched else 0.0
  }

  predicate CancelledOrder(orders: map<Id, OrderState>, order: Id) {
    order in orders && orders[order].cancelled
  }

  function Unsettled(orders: map<Id, OrderState>, order: Id, ws: seq<Waiter>): seq<Waiter> {
    if ws == [] then []
    else
      var front, w := Unsettled(orders, order, ws[..|ws| - 1]), ws[|ws| - 1];
      if Derive(orders, order, w.desiredSize).Some? then front else front + [w]
  }

  function Settled(orders: map<Id, OrderState>, order: Id, ws: seq<Waiter>): seq<Answer> {
    if ws == [] then []
    else
      var front, w := Settled(orders, order, ws[..|ws| - 1]), ws[|ws| - 1];
      var outcome := Derive(orders, order, w.desiredSize);
      if outcome.Some? then front + [Answer(w.id, order, w.desiredSize, outcome.value)] else front
  }

  function AnswerIds(answers: seq<Answer>): set<nat> {
    set a | a in answers :: a.id
  }

  function WaiterIds(ws: seq<Waiter>): set<nat> {
    set w | w in ws :: w.id
  }

  function Queued(waiters: map<Id, seq<Waiter>>, order: Id, ws: seq<Waiter>): map<Id, seq<Waiter>> {
    if ws == [] then waiters - {order} else waiters[order := ws]
  }

  function Resolved(s: Tracker, order: Id): Tracker {
    if order !in s.waiters then s
    else
      var ws := s.waiters[order];
      s.(waiters := Queued(s.waiters, order, Unsettled(s.orders, order, ws)),
         timers := s.timers - AnswerIds(Settled(s.orders, order, ws)),
         answered := s.answered + Settled(s.orders, order, ws))
  }

  function WithoutWaiter(ws: seq<Waiter>, id: nat): seq<Waiter> {
    if ws == [] then []
    else
      var front, w := WithoutWaiter(ws[..|ws| - 1], id), ws[|ws| - 1];
      if w.id == id then front else front + [w]
  }

  // ------------------------------------------------------------------ steps

  function SeenOf(s: Tracker, order: Id): set<Id> {
    if order in s.seen then s.seen[order] else {}
  }

  predicate Counts(s: Tracker, order: Id, trade: Id, amount: Option<real>) {
    amount.Some? && amount.value > 0.0 && trade !in SeenOf(s, order)
  }

  function Booking(s: Tracker, order: Id, trade: Id, fill: Option<Fill>): Tracker {
    if s.portfolio && fill.Some? then s.(log := s.log + [Booked(order, trade, fill.value)]) else s
  }

  function Step(s: Tracker, move: Move): Tracker {
    match move
    case OrderMessage(order, update, now) =>
      Resolved(s.(orders := s.orders[order := AfterOrder(s.orders, order, update, now)],
                  log := s.log + [Reported(order, update.sizeMatched)]), order)
    case TradeMatch(order, trade, amount, info, now) =>
      var logged := s.(log := s.log + [Traded(order, trade, amount)]);
      if !Counts(s, order, trade, amount) then logged
      else
        var state := AfterTrade(s.orders, order, amount.value, info, now);
        Booking(
          Resolved(logged.(seen := s.seen[order := SeenOf(s, order) + {trade}], orders := s.orders[order := state]),
            order),
          order, trade, FillOf(state, info, amount.value, now))
    case Wait(order, desiredSize, timeoutMs, now) => Waiting(s, order, desiredSize, timeoutMs, now)
    case Timeout(id, now) => if id in s.timers then TimedOut(s, id, now) else s
    case Cleanup(order) =>
      s.(orders := s.orders - {order}, seen := s.seen - {order}, waiters := s.waiters - {order},
         timers := if order in s.waiters then s.timers - WaiterIds(s.waiters[order]) else s.timers,
         log := s.log + [Cleaned(order)])
  }

  function Waiting(s: Tracker, order: Id, desiredSize: real, timeoutMs: int, now: int): Tracker {
    var immediate := Derive(s.orders, order, desiredSize);
    if immediate.Some? then
      s.(next := s.next + 1, answered := s.answered + [Answer(s.next, order, desiredSize, immediate.value)])
    else if timeoutMs <= 0 then
      var outcome := Outcome(MatchedSize(s.orders, order), false, false, true, now);
      s.(next := s.next + 1, answered := s.answered + [Answer(s.next, order, desiredSize, outcome)])
    else
      var ws := if order in s.waiters then s.waiters[order] else [];
      s.(next := s.next + 1, timers := s.timers[s.next := order],
         waiters := s.waiters[order := ws + [Waiter(s.next, desiredSize)]])
  }

  /** The timer's callback: leave the queue, answer with what has matched so far. */
  function TimedOut(s: Tracker, id: nat, now: int): Tracker
    requires id in s.timers
  {
    var order := s.timers[id];
    var outcome := Outcome(MatchedSize(s.orders, order), false, CancelledOrder(s.orders, order), true, now);
    s.(timers := s.timers - {id},
       waiters := if order in s.waiters then Queued(s.waiters, order, WithoutWaiter(s.waiters[order], id))
         else s.waiters,
       answered := s.answered + [Answer(id, order, DesiredBy(s, order, id), outcome)])
  }

  /** The size the waiter asked for. */
  function DesiredBy(s: Tracker, order: Id, id: nat): real {
    if order in s.waiters then DesiredIn(s.waiters[order], id) else 0.0
  }

  function DesiredIn(ws: seq<Waiter>, id: nat): real {
    if ws == [] then 0.0 else if ws[|ws| - 1].id == id then ws[|ws| - 1].desiredSize else DesiredIn(ws[..|ws| - 1], id)
  }

  function Steps(s: Tracker, moves: seq<Move>): Tracker {
    if moves == [] then s else Step(Steps(s, moves[..|moves| - 1]), moves[|moves| - 1])
  }

  function Run(portfolio: bool, moves: seq<Move>): Tracker {
    Steps(Initial(portfolio), moves)
  }

  // ------------------------------------------------------------------ totals

  datatype Event = Event(trade: Id, amount: real)

  /** The order's positive trade matches since its last cleanup, repeats included. */
  function EventsOf(log: seq<LogItem>, order: Id): seq<Event> {
    if log == [] then []
    else
      var front, last := log[..|log| - 1], log[|log| - 1];
      if last == Cleaned(order) then []
      else if last.Traded? && last.order == order && last.amount.GetOr(0.0) > 0.0 then
        EventsOf(front, order) + [Event(last.trade, last.amount.value)]
      else EventsOf(front, order)
  }

  /** The last match size reported since the last cleanup. */
  function LastReported(log: seq<LogItem>, order: Id): Option<real> {
    if log == [] then None
    else
      var front, last := log[..|log| - 1], log[|log| - 1];
      if last == Cleaned(order) then None
      else if last.Reported? && last.order == order && last.size.Some? then last.size
      else LastReported(front, order)
  }

  /** The trades booked since the last cleanup. */
  function BookedOf(log: seq<LogItem>, order: Id): seq<Id> {
    if log == [] then []
    else
      var front, last := log[..|log| - 1], log[|log| - 1];
      if last == Cleaned(order) then []
      else if last.Booked? && last.order == order then BookedOf(front, order) + [last.trade]
      else BookedOf(front, order)
  }

  function TradeIds(events: seq<Event>): set<Id> {
    set e | e in events :: e.trade
  }

  /** Each trade id counted once, with the amount it first arrived with. */
  function SumDistinct(events: seq<Event>): real {
    if events == [] then 0.0
    else
      var front, last := events[..|events| - 1], events[|events| - 1];
      SumDistinct(front) + if last.trade in TradeIds(front) then 0.0 else last.amount
  }

  function TradeMatched(s: Tracker, order: Id): real {
    if order in s.orders then s.orders[order].tradeMatched else 0.0
  }

  function OrderMatched(s: Tracker, order: Id): Option<real> {
    if order in s.orders then s.orders[order].orderMatched else None
  }

  ghost predicate TotalsOf(s: Tracker, order: Id) {
    && SeenOf(s, order) == TradeIds(EventsOf(s.log, order))
    && TradeMatched(s, order) == SumDistinct(EventsOf(s.log, order))
    && OrderMatched(s, order) == LastReported(s.log, order)
    && MatchedSize(s.orders, order) == Max(LastReported(s.log, order).GetOr(0.0), SumDistinct(EventsOf(s.log, order)))
  }

  ghost predicate BookedOnce(s: Tracker, order: Id) {
    && (forall i, j :: 0 <= i < j < |BookedOf(s.log, order)| ==> BookedOf(s.log, order)[i] != BookedOf(s.log, order)[j])
    && (forall t :: t in BookedOf(s.log, order) ==> t in SeenOf(s, order))
  }

  lemma LogPush(log: seq<LogItem>, item: LogItem, order: Id)
    ensures EventsOf(log + [item], order) ==
      if item == Cleaned(order) then []
      else if item.Traded? && item.order == order && item.amount.GetOr(0.0) > 0.0 then
        EventsOf(log, order) + [Event(item.trade, item.amount.value)]
      else EventsOf(log, order)
    ensures LastReported(log + [item], order) ==
      if item == Cleaned(order) then None
      else if item.Reported? && item.order == order && item.size.Some? then item.size
      else LastReported(log, order)
    ensures BookedOf(log + [item], order) ==
      if item == Cleaned(order) then []
      else if item.Booked? && item.order == order then BookedOf(log, order) + [item.trade]
      else BookedOf(log, order)
  {
    assert (log + [item])[..|log|] == log;
  }

  lemma SumPush(events: seq<Event>, e: Event)
    ensures SumDistinct(events + [e]) == SumDistinct(events) + if e.trade in TradeIds(events) then 0.0 else e.amount
    ensures TradeIds(events + [e]) == TradeIds(events) + {e.trade}
  {
    assert (events + [e])[..|events|] == events;
  }

  lemma {:induction false} SumIsNonNegative(log: seq<LogItem>, order: Id)
    ensures SumDistinct(EventsOf(log, order)) >= 0.0
  {
    if log != [] {
      SumIsNonNegative(log[..|log| - 1], order);
      var last := log[|log| - 1];
      if last.Traded? && last.order == order && last.amount.GetOr(0.0) > 0.0 {
        SumPush(EventsOf(log[..|log| - 1], order), Event(last.trade, last.amount.value));
      }
    }
  }

  /** Resolving waiters and booking fills touches no total. */
  lemma ResolvedKeepsTotals(s: Tracker, order: Id, of: Id)
    ensures TotalsOf(Resolved(s, order), of) <==> TotalsOf(s, of)
    ensures BookedOnce(Resolved(s, order), of) <==> BookedOnce(s, of)
    ensures Resolved(s, order).log == s.log && Resolved(s, order).orders == s.orders
      && Resolved(s, order).seen == s.seen
  {
  }

  lemma BookingKeepsTotals(s: Tracker, order: Id, trade: Id, fill: Option<Fill>, of: Id)
    requires TotalsOf(s, of)
    ensures TotalsOf(Booking(s, order, trade, fill), of)
  {
    if fill.Some? {
      LogPush(s.log, Booked(order, trade, fill.value), of);
    }
  }

  lemma OrderKeepsTotals(s: Tracker, order: Id, update: OrderUpdate, now: int, of: Id)
    requires TotalsOf(s, of) && BookedOnce(s, of)
    ensures TotalsOf(Step(s, OrderMessage(order, update, now)), of)
    ensures BookedOnce(Step(s, OrderMessage(order, update, now)), of)
  {
    var t := s.(orders := s.orders[order := AfterOrder(s.orders, order, update, now)],
                log := s.log + [Reported(order, update.sizeMatched)]);
    LogPush(s.log, Reported(order, update.sizeMatched), of);
    ResolvedKeepsTotals(t, order, of);
    hide EventsOf, SumDistinct, LastReported, TradeIds, BookedOf, Resolved;
  }

  function WithTrade(s: Tracker, order: Id, trade: Id, amount: real, info: TradeInfo, now: int): Tracker {
    s.(log := s.log + [Traded(order, trade, Some(amount))],
       seen := s.seen[order := SeenOf(s, order) + {trade}],
       orders := s.orders[order := AfterTrade(s.orders, order, amount, info, now)])
  }

  lemma CountedTradeKeepsTotals(s: Tracker, order: Id, trade: Id, amount: real, info: TradeInfo, now: int, of: Id)
    requires TotalsOf(s, of) && Counts(s, order, trade, Some(amount))
    ensures TotalsOf(WithTrade(s, order, trade, amount, info, now), of)
  {
    hide EventsOf, SumDistinct, LastReported, TradeIds;
    LogPush(s.log, Traded(order, trade, Some(amount)), of);
    SumPush(EventsOf(s.log, of), Event(trade, amount));
  }

  lemma SkippedTradeKeepsTotals(s: Tracker, order: Id, trade: Id, amount: Option<real>, of: Id)
    requires TotalsOf(s, of) && !Counts(s, order, trade, amount)
    ensures TotalsOf(s.(log := s.log + [Traded(order, trade, amount)]), of)
  {
    LogPush(s.log, Traded(order, trade, amount), of);
    if amount.Some? {
      SumPush(EventsOf(s.log, of), Event(trade, amount.value));
    }
    if order == of && amount.Some? && amount.value > 0.0 {
      assert TradeIds(EventsOf(s.log, of)) + {trade} == TradeIds(EventsOf(s.log, of));
    }
  }

  lemma TradeKeepsTotals(s: Tracker, order: Id, trade: Id, amount: Option<real>, info: TradeInfo, now: int, of: Id)
    requires TotalsOf(s, of)
    ensures TotalsOf(Step(s, TradeMatch(order, trade, amount, info, now)), of)
  {
    hide TotalsOf, AfterTrade;
    if Counts(s, order, trade, amount) {
      var t := WithTrade(s, order, trade, amount.value, info, now);
      CountedTradeKeepsTotals(s, order, trade, amount.value, info, now, of);
      ResolvedKeepsTotals(t, order, of);
      BookingKeepsTotals(Resolved(t, order), order, trade,
        FillOf(AfterTrade(s.orders, order, amount.value, info, now), info, amount.value, now), of);
    } else {
      SkippedTradeKeepsTotals(s, order, trade, amount, of);
    }
  }

  lemma CountedTradeKeepsBooked(s: Tracker, order: Id, trade: Id, amount: real, info: TradeInfo, now: int, of: Id)
    requires BookedOnce(s, of) && Counts(s, order, trade, Some(amount))
    ensures BookedOnce(WithTrade(s, order, trade, amount, info, now), of)
    ensures trade in SeenOf(WithTrade(s, order, trade, amount, info, now), order)
    ensures order == of ==> trade !in BookedOf(WithTrade(s, order, trade, amount, info, now).log, of)
  {
    LogPush(s.log, Traded(order, trade, Some(amount)), of);
  }

  lemma BookingOnce(s: Tracker, order: Id, trade: Id, fill: Option<Fill>, of: Id)
    requires BookedOnce(s, of) && trade in SeenOf(s, order) && (order == of ==> trade !in BookedOf(s.log, of))
    ensures BookedOnce(Booking(s, order, trade, fill), of)
  {
    if fill.Some? {
      LogPush(s.log, Booked(order, trade, fill.value), of);
    }
  }

  lemma TradeBooksOnce(s: Tracker, order: Id, trade: Id, amount: Option<real>, info: TradeInfo, now: int, of: Id)
    requires BookedOnce(s, of)
    ensures BookedOnce(Step(s, TradeMatch(order, trade, amount, info, now)), of)
  {
    hide Resolved, FillOf, AfterTrade, Booking;
    if Counts(s, order, trade, amount) {
      var t := WithTrade(s, order, trade, amount.value, info, now);
      CountedTradeKeepsBooked(s, order, trade, amount.value, info, now, of);
      ResolvedKeepsTotals(t, order, of);
      BookingOnce(Resolved(t, order), order, trade,
        FillOf(AfterTrade(s.orders, order, amount.value, info, now), info, amount.value, now), of);
    } else {
      LogPush(s.log, Traded(order, trade, amount), of);
    }
  }

  lemma CleanupKeepsTotals(s: Tracker, order: Id, of: Id)
    requires TotalsOf(s, of) && BookedOnce(s, of)
    ensures TotalsOf(Step(s, Cleanup(order)), of) && BookedOnce(Step(s, Cleanup(order)), of)
  {
    LogPush(s.log, Cleaned(order), of);
  }

  lemma WaitersHoldNoTotals(s: Tracker, t: Tracker, of: Id)
    requires TotalsOf(s, of) && BookedOnce(s, of) && t.orders == s.orders && t.seen == s.seen && t.log == s.log
    ensures TotalsOf(t, of) && BookedOnce(t, of)
  {
    hide EventsOf, SumDistinct, BookedOf, LastReported, TradeIds;
  }

  lemma OtherMovesKeepTotals(s: Tracker, move: Move, of: Id)
    requires TotalsOf(s, of) && BookedOnce(s, of) && (move.Wait? || move.Timeout?)
    ensures TotalsOf(Step(s, move), of) && BookedOnce(Step(s, move), of)
  {
    hide TotalsOf, BookedOnce, Derive;
    WaitersHoldNoTotals(s, Step(s, move), of);
  }

  lemma StepKeepsTotals(s: Tracker, move: Move, of: Id)
    requires TotalsOf(s, of) && BookedOnce(s, of)
    ensures TotalsOf(Step(s, move), of) && BookedOnce(Step(s, move), of)
  {
    hide TotalsOf, BookedOnce, Step;
    match move {
      case OrderMessage(order, update, now) =>
        OrderKeepsTotals(s, order, update, now, of);
      case TradeMatch(order, trade, amount, info, now) =>
        TradeKeepsTotals(s, order, trade, amount, info, now, of);
        TradeBooksOnce(s, order, trade, amount, info, now, of);
      case Cleanup(order) =>
        CleanupKeepsTotals(s, order, of);
      case _ =>
        OtherMovesKeepTotals(s, move, of);
    }
  }

  /**
   * For messages in any order and with repeats: an order's trade total is the sum over the distinct
   * trade ids since its last cleanup, its matched size the larger of that and the last reported match,
   * and no (order, trade) pair is booked twice.
   */
  lemma {:induction false} RunsKeepTotals(portfolio: bool, moves: seq<Move>, order: Id)
    ensures TotalsOf(Run(portfolio, moves), order) && BookedOnce(Run(portfolio, moves), order)
  {
    if moves != [] {
      RunsKeepTotals(portfolio, moves[..|moves| - 1], order);
      StepKeepsTotals(Run(portfolio, moves[..|moves| - 1]), moves[|moves| - 1], order);
    }
  }

  /** A trade already seen for the order changes nothing, whatever amount it now carries. */
  lemma RepeatChangesNothing(portfolio: bool, moves: seq<Move>, order: Id, trade: Id, amount: Option<real>,
      info: TradeInfo, now: int)
    requires trade in TradeIds(EventsOf(Run(portfolio, moves).log, order))
    ensures var s := Run(portfolio, moves); var t := Step(s, TradeMatch(order, trade, amount, info, now));
      t == s.(log := t.log) && BookedOf(t.log, order) == BookedOf(s.log, order)
  {
    RunsKeepTotals(portfolio, moves, order);
    LogPush(Run(portfolio, moves).log, Traded(order, trade, amount), order);
  }

  /**
   * A match is booked exactly when a portfolio is attached, the amount is positive, everything about the
   * fill is known, and no positive match of the same trade came since the order's last cleanup. After a
   * cleanup a repeated trade message is therefore booked again.
   */
  lemma BookedIff(portfolio: bool, moves: seq<Move>, order: Id, trade: Id, amount: Option<real>, info: TradeInfo,
      now: int)
    ensures var s := Run(portfolio, moves); var t := Step(s, TradeMatch(order, trade, amount, info, now));
      BookedOf(t.log, order) != BookedOf(s.log, order) <==>
        && portfolio && amount.GetOr(0.0) > 0.0 && trade !in TradeIds(EventsOf(s.log, order))
        && FillOf(AfterTrade(s.orders, order, amount.GetOr(0.0), info, now), info, amount.GetOr(0.0), now).Some?
  {
    hide FillOf, AfterTrade, TotalsOf, BookedOnce, Resolved;
    var s := Run(portfolio, moves);
    PortfolioStays(portfolio, moves);
    RunsKeepTotals(portfolio, moves, order);
    SeenSinceCleanup(s, order);
    LogPush(s.log, Traded(order, trade, amount), order);
    if Counts(s, order, trade, amount) {
      var t := WithTrade(s, order, trade, amount.value, info, now);
      ResolvedKeepsTotals(t, order, order);
      var fill := FillOf(AfterTrade(s.orders, order, amount.value, info, now), info, amount.value, now);
      PortfolioKept(t, order);
      if fill.Some? {
        LogPush(Resolved(t, order).log, Booked(order, trade, fill.value), order);
      }
    }
  }

  lemma StepsPush(s: Tracker, moves: seq<Move>, move: Move)
    ensures Steps(s, moves + [move]) == Step(Steps(s, moves), move)
  {
    assert (moves + [move])[..|moves|] == moves;
  }

  /** One trade message that comes again after its order's cleanup is two fills in the portfolio. */
  lemma BookedAgain(order: Id, trade: Id, amount: real, info: TradeInfo, now: int)
    requires amount > 0.0 && Present(info.assetId) && Present(info.marketId) && info.side.Some? && info.price.Some?
    ensures var fill := Fill(info.assetId.value, info.marketId.value, info.side.value, amount, info.price.value,
        info.timestampMs.GetOr(now));
      var traded := Traded(order, trade, Some(amount));
      Run(true, [TradeMatch(order, trade, Some(amount), info, now), Cleanup(order),
        TradeMatch(order, trade, Some(amount), info, now)]).log
      == [traded, Booked(order, trade, fill), Cleaned(order), traded, Booked(order, trade, fill)]
  {
    var match1, cleanup := TradeMatch(order, trade, Some(amount), info, now), Cleanup(order);
    StepsPush(Initial(true), [], match1);
    StepsPush(Initial(true), [match1], cleanup);
    StepsPush(Initial(true), [match1, cleanup], match1);
    assert [] + [match1] == [match1] && [match1] + [cleanup] == [match1, cleanup];
    assert [match1, cleanup] + [match1] == [match1, cleanup, match1];
  }

  lemma SeenSinceCleanup(s: Tracker, order: Id)
    requires TotalsOf(s, order)
    ensures SeenOf(s, order) == TradeIds(EventsOf(s.log, order))
  {
  }

  lemma PortfolioKept(s: Tracker, order: Id)
    ensures Resolved(s, order).portfolio == s.portfolio
  {
  }

  lemma {:induction false} PortfolioStays(portfolio: bool, moves: seq<Move>)
    ensures Run(portfolio, moves).portfolio == portfolio
  {
    hide Resolved, FillOf, AfterTrade, AfterOrder, Derive;
    if moves != [] {
      PortfolioStays(portfolio, moves[..|moves| - 1]);
      StepKeepsPortfolio(Run(portfolio, moves[..|moves| - 1]), moves[|moves| - 1]);
    }
  }

  lemma StepKeepsPortfolio(s: Tracker, move: Move)
    ensures Step(s, move).portfolio == s.portfolio
  {
    hide FillOf, AfterTrade, AfterOrder, Derive, Settled, Unsettled, WithoutWaiter;
  }

  // ------------------------------------------------------------------ order of arrival does not matter

  ghost predicate Consistent(events: seq<Event>) {
    forall e, f :: e in events && f in events && e.trade == f.trade ==> e == f
  }

  function WithoutTrade(events: seq<Event>, trade: Id): (r: seq<Event>)
    ensures |r| <= |events|
  {
    if events == [] then []
    else
      var front, last := WithoutTrade(events[..|events| - 1], trade), events[|events| - 1];
      if last.trade == trade then front else front + [last]
  }

  lemma {:induction false} WithoutTradeIs(events: seq<Event>, trade: Id)
    ensures forall e :: e in WithoutTrade(events, trade) <==> e in events && e.trade != trade
    ensures trade in TradeIds(events) ==> |WithoutTrade(events, trade)| < |events|
  {
    if events != [] {
      WithoutTradeIs(events[..|events| - 1], trade);
    }
  }

  /** Taking one trade out of the list takes its amount out of the sum. */
  lemma {:induction false} TakeOutTrade(events: seq<Event>, e: Event)
    requires Consistent(events) && e in events
    ensures SumDistinct(events) == SumDistinct(WithoutTrade(events, e.trade)) + e.amount
  {
    var front, last := events[..|events| - 1], events[|events| - 1];
    WithoutTradeIs(front, e.trade);
    assert Consistent(front) by {
      assert forall f :: f in front ==> f in events;
    }
    assert events == front + [last];
    SumPush(front, last);
    SumPush(WithoutTrade(front, e.trade), last);
    if e in front {
      TakeOutTrade(front, e);
    } else {
      NothingToTakeOut(front, e);
    }
  }

  lemma {:induction false} NothingToTakeOut(front: seq<Event>, e: Event)
    requires Consistent(front + [e]) && e !in front
    ensures WithoutTrade(front, e.trade) == front && e.trade !in TradeIds(front)
  {
    forall f | f in front
      ensures f.trade != e.trade
    {
      assert f in front + [e] && e in front + [e];
    }
    NoTradeToRemove(front, e.trade);
  }

  lemma {:induction false} NoTradeToRemove(events: seq<Event>, trade: Id)
    requires forall f :: f in events ==> f.trade != trade
    ensures WithoutTrade(events, trade) == events
  {
    if events != [] {
      NoTradeToRemove(events[..|events| - 1], trade);
      assert events == events[..|events| - 1] + [events[|events| - 1]];
    }
  }

  lemma FirstIsMember(events: seq<Event>)
    ensures events == [] || events[0] in events
  {
  }

  /** With one amount per trade id, the total depends only on which trades arrived. */
  lemma {:induction false} TotalIgnoresOrder(a: seq<Event>, b: seq<Event>)
    requires Consistent(a) && forall e :: e in a <==> e in b
    ensures SumDistinct(a) == SumDistinct(b)
    decreases |a|
  {
    if a == [] {
      FirstIsMember(b);
    } else {
      var e := a[|a| - 1];
      assert e in a && e in b;
      TakeOutTrade(a, e);
      TakeOutTrade(b, e);
      WithoutTradeIs(a, e.trade);
      WithoutTradeIs(b, e.trade);
      TotalIgnoresOrder(WithoutTrade(a, e.trade), WithoutTrade(b, e.trade));
    }
  }
}

/** The tracker object: its maps changed message by message. */
module OrderTracking {
  import opened Prelude
  import opened OrderTracker
  import opened FillWaiters

  /** One message about a trade: its taker order, if any, and its makers. */
  datatype TradeUpdate = TradeUpdate(
    trade: Id, takerOrder: Option<Id>, takerSize: Option<real>, makers: seq<(Id, Option<real>)>, info: TradeInfo)

  predicate HasTaker(u: TradeUpdate) {
    Present(u.takerOrder) && u.takerSize.Some?
  }

  function TakerMoves(u: TradeUpdate, now: int): seq<Move> {
    if HasTaker(u) then [TradeMatch(u.takerOrder.value, u.trade, u.takerSize, u.info, now)] else []
  }

  /** The matches of one message: the taker's, then each maker's. */
  function MatchesOf(u: TradeUpdate, makers: nat, now: int): seq<Move>
    requires makers <= |u.makers|
  {
    if makers == 0 then TakerMoves(u, now)
    else
      var m := u.makers[makers - 1];
      MatchesOf(u, makers - 1, now) + [TradeMatch(m.0, u.trade, m.1, u.info, now)]
  }

  /** The matches of a message: the taker's if it is named with a size, then every maker's, all of one trade. */
  ghost predicate Lists(moves: seq<Move>, u: TradeUpdate, now: int) {
    var n := if u.takerOrder.Some? && u.takerOrder != Some("") && u.takerSize.Some? then 1 else 0;
    && |moves| == n + |u.makers|
    && (n == 1 ==> moves[0] == TradeMatch(u.takerOrder.value, u.trade, u.takerSize, u.info, now))
    && (forall i :: 0 <= i < |u.makers| ==>
          moves[n + i] == TradeMatch(u.makers[i].0, u.trade, u.makers[i].1, u.info, now))
  }

  lemma {:induction false} MatchesAreListed(u: TradeUpdate, now: int)
    ensures Lists(MatchesOf(u, |u.makers|, now), u, now)
    decreases |u.makers|
  {
    if u.makers != [] {
      var fewer := u.(makers := u.makers[..|u.makers| - 1]);
      MatchesAreListed(fewer, now);
      SameMatches(u, fewer, |fewer.makers|, now);
      hide HasTaker;
    }
  }

  lemma {:induction false} SameMatches(u: TradeUpdate, v: TradeUpdate, n: nat, now: int)
    requires n <= |v.makers| <= |u.makers| && v == u.(makers := v.makers) && v.makers == u.makers[..|v.makers|]
    ensures MatchesOf(u, n, now) == MatchesOf(v, n, now)
  {
    if n > 0 {
      SameMatches(u, v, n - 1, now);
    }
  }

  function Cleanups(orders: seq<Id>): (r: seq<Move>)
    ensures |r| == |orders| && forall i :: 0 <= i < |orders| ==> r[i] == Cleanup(orders[i])
  {
    seq(|orders|, i requires 0 <= i < |orders| => Cleanup(orders[i]))
  }

  lemma StepsFew(s: Tracker, move: Move)
    ensures Steps(s, []) == s && Steps(s, [move]) == Step(s, move)
  {
    assert [] + [move] == [move];
    StepsPush(s, [], move);
  }

  /** The stored order after a message: what it says, and where it says nothing what was known before. */
  ghost predicate Merged(before: map<Id, OrderState>, order: Id, u: OrderUpdate, now: int, next: OrderState) {
    var known := order in before;
    && next.marketId == (if u.marketId.Some? || !known then u.marketId else before[order].marketId)
    && next.tokenId == (if u.assetId.Some? || !known then u.assetId else before[order].tokenId)
    && next.side == (if u.side.Some? || !known then u.side else before[order].side)
    && next.price == (if u.price.Some? || !known then u.price else before[order].price)
    && next.status == (if u.status.Some? || !known then u.status else before[order].status)
    && next.lastUpdateMs == (if u.timestampMs.Some? then u.timestampMs.value else now)
    && (next.cancelled <==>
          u.cancellationEvent || u.status == Some(Cancelled) || (known && before[order].cancelled))
  }

  /** The stored order after a new trade: the first one names the order, each adds its amount and sets the time. */
  ghost predicate Added(before: map<Id, OrderState>, order: Id, amount: real, info: TradeInfo, now: int,
      next: OrderState)
  {
    && next.lastUpdateMs == (if info.timestampMs.Some? then info.timestampMs.value else now)
    && if order in before then
         var was := before[order];
         && next.tradeMatched == was.tradeMatched + amount
         && next.marketId == was.marketId && next.tokenId == was.tokenId
         && next.side == was.side && next.price == was.price && next.status == was.status
         && next.cancelled == was.cancelled && next.orderMatched == was.orderMatched
       else
         && next.tradeMatched == amount == next.sizeMatched && next.marketId == info.marketId
         && next.tokenId == info.assetId && next.side == info.side && next.price == info.price
         && next.status.None? && !next.cancelled && next.orderMatched.None?
  }

  lemma MergedIs(before: map<Id, OrderState>, order: Id, u: OrderUpdate, now: int)
    ensures Merged(before, order, u, now, AfterOrder(before, order, u, now))
  {
  }

  lemma AddedIs(before: map<Id, OrderState>, order: Id, amount: real, info: TradeInfo, now: int)
    requires amount > 0.0
    ensures Added(before, order, amount, info, now, AfterTrade(before, order, amount, info, now))
  {
  }

  /** The fill says what is known of the order, or else of the trade; only the price prefers the trade's. */
  ghost predicate Describes(fill: Fill, state: OrderState, info: TradeInfo, amount: real, now: int) {
    && Some(fill.tokenId) == (if state.tokenId.Some? then state.tokenId else info.assetId)
    && Some(fill.marketId) == (if state.marketId.Some? then state.marketId else info.marketId)
    && Some(fill.side) == (if state.side.Some? then state.side else info.side)
    && Some(fill.price) == (if info.price.Some? then info.price else state.price)
    && fill.size == amount && fill.timestamp == (if info.timestampMs.Some? then info.timestampMs.value else now)
  }

  class ExecutionOrderTracker {
    const hasPortfolio: bool
    var userOrders: map<Id, OrderState>
    var fillWaiters: map<Id, seq<Waiter>>
    var seenTradesByOrder: map<Id, set<Id>>
    var timeouts: map<nat, Id>
    var nextWaiter: nat
    ghost var answered: seq<Answer>
    ghost var log: seq<LogItem>

    ghost function View(): Tracker
      reads this
    {
      Tracker(userOrders, fillWaiters, seenTradesByOrder, timeouts, nextWaiter, hasPortfolio, answered, log)
    }

    constructor (portfolio: bool)
      ensures View() == Initial(portfolio)
    {
      hasPortfolio := portfolio;
      userOrders, fillWaiters, seenTradesByOrder, timeouts, nextWaiter := map[], map[], map[], map[], 0;
      answered, log := [], [];
    }

    method ResolveFillWaiters(order: Id)
      modifies this
      ensures View() == Resolved(old(View()), order) && userOrders == old(userOrders)
    {
      if order !in fillWaiters {
        return;
      }
      var waiters := fillWaiters[order];
      var remaining, cleared := [], timeouts;
      ghost var given: seq<Answer> := [];
      var i := 0;
      while i < |waiters|
        invariant 0 <= i <= |waiters|
        invariant remaining == Unsettled(userOrders, order, waiters[..i])
        invariant given == Settled(userOrders, order, waiters[..i])
        invariant cleared == timeouts - AnswerIds(given)
        invariant View() == old(View())
      {
        var w := waiters[i];
        assert waiters[..i + 1][..i] == waiters[..i];
        var outcome := Derive(userOrders, order, w.desiredSize);
        if outcome.Some? {
          cleared := cleared - {w.id};
          given := given + [Answer(w.id, order, w.desiredSize, outcome.value)];
        } else {
          remaining := remaining + [w];
        }
        i := i + 1;
      }
      assert waiters[..i] == waiters;
      timeouts := cleared;
      answered := answered + given;
      fillWaiters := if |remaining| > 0 then fillWaiters[order := remaining] else fillWaiters - {order};
    }

    method HandleUserOrderUpdate(order: Id, update: OrderUpdate, now: int)
      modifies this
      ensures View() == Step(old(View()), OrderMessage(order, update, now))
      ensures order in userOrders && Merged(old(userOrders), order, update, now, userOrders[order])
      ensures userOrders - {order} == old(userOrders) - {order}
    {
      hide Resolved, Merged;
      MergedIs(userOrders, order, update, now);
      userOrders := userOrders[order := AfterOrder(userOrders, order, update, now)];
      log := log + [Reported(order, update.sizeMatched)];
      ResolveFillWaiters(order);
    }

    method ApplyMatch(order: Id, trade: Id, amount: Option<real>, info: TradeInfo, now: int)
      modifies this
      ensures View() == Step(old(View()), TradeMatch(order, trade, amount, info, now))
      ensures userOrders - {order} == old(userOrders) - {order}
      ensures amount.None? || amount.value <= 0.0 || trade in old(SeenOf(View(), order)) ==>
        userOrders == old(userOrders)
      ensures amount.Some? && amount.value > 0.0 && trade !in old(SeenOf(View(), order)) ==>
        order in userOrders && Added(old(userOrders), order, amount.value, info, now, userOrders[order])
    {
      hide Resolved, AfterTrade, FillOf, Added;
      log := log + [Traded(order, trade, amount)];
      if amount.None? || amount.value <= 0.0 {
        return;
      }
      var seen := if order in seenTradesByOrder then seenTradesByOrder[order] else {};
      if trade in seen {
        return;
      }
      seenTradesByOrder := seenTradesByOrder[order := seen + {trade}];
      AddedIs(userOrders, order, amount.value, info, now);
      var next := AfterTrade(userOrders, order, amount.value, info, now);
      userOrders := userOrders[order := next];
      ResolveFillWaiters(order);
      RecordPortfolioFillFromTrade(order, trade, next, info, amount.value, now);
    }

    /** The portfolio and the bus are the log's `Booked` items. */
    method RecordPortfolioFillFromTrade(order: Id, trade: Id, state: OrderState, info: TradeInfo, amount: real,
          now: int)
      modifies this`log
      ensures View() == Booking(old(View()), order, trade, FillOf(state, info, amount, now))
      ensures log == old(log) || exists fill ::
        log == old(log) + [Booked(order, trade, fill)] && Describes(fill, state, info, amount, now)
      ensures log != old(log) <==>
        && hasPortfolio && (state.side.Some? || info.side.Some?) && (state.price.Some? || info.price.Some?)
        && (if state.tokenId.Some? then state.tokenId != Some("") else info.assetId.GetOr("") != "")
        && (if state.marketId.Some? then state.marketId != Some("") else info.marketId.GetOr("") != "")
    {
      if !hasPortfolio {
        return;
      }
      var token, market, side := Or(state.tokenId, info.assetId), Or(state.marketId, info.marketId),
        Or(state.side, info.side);
      var price := Or(info.price, state.price);
      if !Present(token) || !Present(market) || side.None? || price.None? {
        return;
      }
      log := log + [Booked(order, trade,
        Fill(token.value, market.value, side.value, amount, price.value, info.timestampMs.GetOr(now)))];
    }

    method HandleUserTradeUpdate(u: TradeUpdate, now: int)
      modifies this
      ensures View() == Steps(old(View()), MatchesOf(u, |u.makers|, now))
      ensures Lists(MatchesOf(u, |u.makers|, now), u, now)
    {
      MatchesAreListed(u, now);
      hide Step, Steps;
      ghost var start := View();
      StepsFew(start, TradeMatch(u.takerOrder.GetOr(""), u.trade, u.takerSize, u.info, now));
      if HasTaker(u) {
        ApplyMatch(u.takerOrder.value, u.trade, u.takerSize, u.info, now);
      }
      var i := 0;
      while i < |u.makers|
        invariant 0 <= i <= |u.makers|
        invariant View() == Steps(start, MatchesOf(u, i, now))
      {
        ApplyMatch(u.makers[i].0, u.trade, u.makers[i].1, u.info, now);
        StepsPush(start, MatchesOf(u, i, now), TradeMatch(u.makers[i].0, u.trade, u.makers[i].1, u.info, now));
        i := i + 1;
      }
    }

    /** An outcome at once, or None and a queued waiter. */
    method WaitForFillOutcome(order: Id, desiredSize: real, timeoutMs: int, now: int) returns (outcome: Option<Outcome>)
      modifies this
      ensures View() == Step(old(View()), Wait(order, desiredSize, timeoutMs, now))
      ensures outcome.None? ==> timeouts == old(timeouts)[old(nextWaiter) := order]
      ensures outcome.Some? ==> answered == old(answered) + [Answer(old(nextWaiter), order, desiredSize, outcome.value)]
      ensures outcome.Some? <==> Closed(userOrders, order, desiredSize) || timeoutMs <= 0
      ensures outcome.Some? ==> Truthful(userOrders, order, desiredSize, outcome.value)
      ensures outcome.Some? && outcome.value.timedOut ==> outcome.value.observedAtMs == now
      ensures userOrders == old(userOrders)
    {
      outcome := Derive(userOrders, order, desiredSize);
      var id := nextWaiter;
      nextWaiter := id + 1;
      if outcome.Some? {
        answered := answered + [Answer(id, order, desiredSize, outcome.value)];
      } else if timeoutMs <= 0 {
        outcome := Some(Outcome(MatchedSize(userOrders, order), false, false, true, now));
        answered := answered + [Answer(id, order, desiredSize, outcome.value)];
      } else {
        var waiters := if order in fillWaiters then fillWaiters[order] else [];
        timeouts := timeouts[id := order];
        fillWaiters := fillWaiters[order := waiters + [Waiter(id, desiredSize)]];
      }
    }

    method TimeoutFired(id: nat, now: int) returns (outcome: Outcome)
      requires id in timeouts
      modifies this
      ensures View() == Step(old(View()), Timeout(id, now))
      ensures answered[|answered| - 1].outcome == outcome
      ensures outcome.timedOut && !outcome.fullyFilled && outcome.observedAtMs == now && userOrders == old(userOrders)
      ensures var order := old(timeouts[id]);
        && outcome.sizeMatched == (if order in userOrders then userOrders[order].sizeMatched else 0.0)
        && (outcome.cancelled <==> order in userOrders && userOrders[order].cancelled)
    {
      var order := timeouts[id];
      ghost var desiredSize := DesiredBy(View(), order, id);
      timeouts := timeouts - {id};
      if order in fillWaiters {
        var remaining := WithoutWaiter(fillWaiters[order], id);
        fillWaiters := if |remaining| > 0 then fillWaiters[order := remaining] else fillWaiters - {order};
      }
      outcome := Outcome(MatchedSize(userOrders, order), false, CancelledOrder(userOrders, order), true, now);
      answered := answered + [Answer(id, order, desiredSize, outcome)];
    }

    method CleanupOne(order: Id)
      modifies this
      ensures View() == Step(old(View()), Cleanup(order))
    {
      if order in fillWaiters {
        timeouts := timeouts - WaiterIds(fillWaiters[order]);
        fillWaiters := fillWaiters - {order};
      }
      userOrders := userOrders - {order};
      seenTradesByOrder := seenTradesByOrder - {order};
      log := log + [Cleaned(order)];
    }

    method CleanupOrderTracking(orders: seq<Id>)
      modifies this
      ensures View() == Steps(old(View()), Cleanups(orders))
    {
      hide Step;
      var i := 0;
      while i < |orders|
        invariant 0 <= i <= |orders|
        invariant View() == Steps(old(View()), Cleanups(orders[..i]))
      {
        CleanupOne(orders[i]);
        StepsPush(old(View()), Cleanups(orders[..i]), Cleanup(orders[i]));
        assert Cleanups(orders[..i + 1]) == Cleanups(orders[..i]) + [Cleanup(orders[i])];
        i := i + 1;
      }
      assert orders[..i] == orders;
    }
  }
}

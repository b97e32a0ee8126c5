/** The callers waiting for fills: what every message, wait, timeout and cleanup keeps about them. */
module FillWaiters {
  import opened Prelude
  import opened OrderTracker

  ghost predicate DistinctIds(ws: seq<Waiter>) {
    forall i, j :: 0 <= i < j < |ws| ==> ws[i].id != ws[j].id
  }

  /** A stored queue is never empty, and each waiter in it has its timer pending. */
  ghost predicate QueueShape(s: Tracker, order: Id) {
    order in s.waiters ==>
      s.waiters[order] != [] && DistinctIds(s.waiters[order])
      && forall w :: w in s.waiters[order] ==> w.id in s.timers && s.timers[w.id] == order
  }

  /** No waiter in the queue could already be answered from the stored order state. */
  ghost predicate Unanswerable(s: Tracker, order: Id) {
    order in s.waiters ==> forall w :: w in s.waiters[order] ==> Derive(s.orders, order, w.desiredSize).None?
  }

  /** A pending timer belongs to a queued waiter. */
  ghost predicate TimerQueued(s: Tracker, id: nat) {
    id in s.timers ==> id < s.next && s.timers[id] in s.waiters && id in WaiterIds(s.waiters[s.timers[id]])
  }

  ghost predicate DistinctAnswers(answers: seq<Answer>) {
    forall i, j :: 0 <= i < j < |answers| ==> answers[i].id != answers[j].id
  }

  /** Nobody is answered twice, and whoever was answered has no timer any more. */
  ghost predicate AnswersOk(s: Tracker) {
    DistinctAnswers(s.answered) && forall a :: a in s.answered ==> a.id < s.next && a.id !in s.timers
  }

  ghost predicate Shape(s: Tracker) {
    (forall o :: QueueShape(s, o)) && (forall id :: TimerQueued(s, id)) && AnswersOk(s)
  }

  ghost predicate Inv(s: Tracker) {
    Shape(s) && forall o :: Unanswerable(s, o)
  }

  /** The answer was true of the stored state: an outcome that holds, or a timeout while none does. */
  ghost predicate TrueAnswer(orders: map<Id, OrderState>, a: Answer) {
    && a.outcome.sizeMatched == MatchedSize(orders, a.order)
    && if a.outcome.timedOut then
         Derive(orders, a.order, a.desiredSize).None? && !a.outcome.fullyFilled && !a.outcome.cancelled
       else Derive(orders, a.order, a.desiredSize) == Some(a.outcome)
  }

  // ------------------------------------------------------------------ splitting a queue

  lemma {:induction false} UnsettledIs(orders: map<Id, OrderState>, order: Id, ws: seq<Waiter>)
    ensures forall w :: w in Unsettled(orders, order, ws) <==> w in ws && Derive(orders, order, w.desiredSize).None?
  {
    if ws != [] {
      UnsettledIs(orders, order, ws[..|ws| - 1]);
    }
  }

  lemma {:induction false} UnsettledDistinct(orders: map<Id, OrderState>, order: Id, ws: seq<Waiter>)
    requires DistinctIds(ws)
    ensures DistinctIds(Unsettled(orders, order, ws))
  {
    if ws != [] {
      var front, last := ws[..|ws| - 1], ws[|ws| - 1];
      UnsettledDistinct(orders, order, front);
      UnsettledIs(orders, order, front);
      IdsDiffer(front, Unsettled(orders, order, front), last);
    }
  }

  lemma IdsDiffer(front: seq<Waiter>, part: seq<Waiter>, last: Waiter)
    requires DistinctIds(front + [last]) && forall w :: w in part ==> w in front
    ensures forall i :: 0 <= i < |part| ==> part[i].id != last.id
    ensures forall w :: w in front ==> w.id != last.id
  {
    forall w | w in front
      ensures w.id != last.id
    {
      var i :| 0 <= i < |front| && front[i] == w;
      assert (front + [last])[i] == w && (front + [last])[|front|] == last;
    }
    forall i | 0 <= i < |part|
      ensures part[i].id != last.id
    {
      assert part[i] in part;
    }
  }

  /** The answers given are true and for waiters of the queue that had one. */
  lemma {:induction false} SettledAre(orders: map<Id, OrderState>, order: Id, ws: seq<Waiter>)
    ensures forall a :: a in Settled(orders, order, ws) ==>
      a.order == order && Derive(orders, order, a.desiredSize) == Some(a.outcome) && Waiter(a.id, a.desiredSize) in ws
    ensures forall w :: w in ws && Derive(orders, order, w.desiredSize).Some? ==>
      w.id in AnswerIds(Settled(orders, order, ws))
  {
    if ws != [] {
      var front, last := ws[..|ws| - 1], ws[|ws| - 1];
      SettledAre(orders, order, front);
      assert ws == front + [last];
      assert last == Waiter(last.id, last.desiredSize);
      var outcome := Derive(orders, order, last.desiredSize);
      if outcome.Some? {
        var all := Settled(orders, order, ws);
        assert all[|all| - 1].id == last.id;
      }
    }
  }

  lemma {:induction false} SettledDistinct(orders: map<Id, OrderState>, order: Id, ws: seq<Waiter>)
    requires DistinctIds(ws)
    ensures DistinctAnswers(Settled(orders, order, ws))
  {
    if ws != [] {
      var front, last := ws[..|ws| - 1], ws[|ws| - 1];
      SettledDistinct(orders, order, front);
      SettledAre(orders, order, front);
      IdsDiffer(front, front, last);
      var given := Settled(orders, order, front);
      forall i | 0 <= i < |given|
        ensures given[i].id != last.id
      {
        assert given[i] in given;
      }
    }
  }

  /** Within a queue of distinct ids, an answered id belongs to no waiter that stays. */
  lemma SettledLeave(orders: map<Id, OrderState>, order: Id, ws: seq<Waiter>)
    requires DistinctIds(ws)
    ensures WaiterIds(Unsettled(orders, order, ws)) !! AnswerIds(Settled(orders, order, ws))
    ensures WaiterIds(Unsettled(orders, order, ws)) + AnswerIds(Settled(orders, order, ws)) == WaiterIds(ws)
  {
    UnsettledIs(orders, order, ws);
    SettledAre(orders, order, ws);
    forall a, w | a in Settled(orders, order, ws) && w in Unsettled(orders, order, ws)
      ensures a.id != w.id
    {
      if a.id == w.id {
        OneWaiterPerId(ws, Waiter(a.id, a.desiredSize), w);
      }
    }
    forall id | id in WaiterIds(ws)
      ensures id in WaiterIds(Unsettled(orders, order, ws)) + AnswerIds(Settled(orders, order, ws))
    {
      var w :| w in ws && w.id == id;
      if Derive(orders, order, w.desiredSize).None? {
        assert w in Unsettled(orders, order, ws);
      }
    }
  }

  lemma OneWaiterPerId(ws: seq<Waiter>, v: Waiter, w: Waiter)
    requires DistinctIds(ws) && v in ws && w in ws && v.id == w.id
    ensures v == w
  {
    var i :| 0 <= i < |ws| && ws[i] == v;
    var j :| 0 <= j < |ws| && ws[j] == w;
  }

  // ------------------------------------------------------------------ resolving

  lemma ResolvedQueue(s: Tracker, order: Id)
    requires Shape(s) && order in s.waiters
    ensures QueueShape(Resolved(s, order), order) && Unanswerable(Resolved(s, order), order)
  {
    var ws := s.waiters[order];
    assert QueueShape(s, order);
    UnsettledIs(s.orders, order, ws);
    UnsettledDistinct(s.orders, order, ws);
    SettledLeave(s.orders, order, ws);
    forall w | w in Unsettled(s.orders, order, ws)
      ensures w.id !in AnswerIds(Settled(s.orders, order, ws))
    {
      assert w.id in WaiterIds(Unsettled(s.orders, order, ws));
    }
  }

  lemma ResolvedOther(s: Tracker, order: Id, other: Id)
    requires Shape(s) && other != order
    ensures QueueShape(Resolved(s, order), other)
    ensures Unanswerable(s, other) ==> Unanswerable(Resolved(s, order), other)
  {
    assert QueueShape(s, other) && QueueShape(s, order);
    if order in s.waiters && other in s.waiters {
      SettledAre(s.orders, order, s.waiters[order]);
      forall w | w in s.waiters[other]
        ensures w.id !in AnswerIds(Settled(s.orders, order, s.waiters[order]))
      {
        assert s.timers[w.id] == other;
      }
    }
  }

  lemma ResolvedTimers(s: Tracker, order: Id, id: nat)
    requires Shape(s)
    ensures TimerQueued(Resolved(s, order), id)
  {
    assert TimerQueued(s, id) && QueueShape(s, order);
    if order in s.waiters && id in Resolved(s, order).timers && s.timers[id] == order {
      SettledLeave(s.orders, order, s.waiters[order]);
      assert id in WaiterIds(Unsettled(s.orders, order, s.waiters[order]));
    }
  }

  lemma ResolvedAnswers(s: Tracker, order: Id)
    requires Shape(s)
    ensures AnswersOk(Resolved(s, order))
  {
    assert QueueShape(s, order);
    if order in s.waiters {
      var given := Settled(s.orders, order, s.waiters[order]);
      SettledAre(s.orders, order, s.waiters[order]);
      SettledDistinct(s.orders, order, s.waiters[order]);
      forall a | a in given
        ensures a.id < s.next && a.id in s.timers
      {
        assert TimerQueued(s, a.id);
      }
      MoreAnswers(s.answered, given, s.timers.Keys);
    }
  }

  lemma MoreAnswers(answered: seq<Answer>, given: seq<Answer>, timers: set<nat>)
    requires DistinctAnswers(answered) && DistinctAnswers(given)
    requires forall a :: a in answered ==> a.id !in timers
    requires forall a :: a in given ==> a.id in timers
    ensures DistinctAnswers(answered + given)
  {
    forall i, j | 0 <= i < |answered| && 0 <= j < |given|
      ensures answered[i].id != given[j].id
    {
      assert answered[i] in answered && given[j] in given;
    }
  }

  /** Resolving the queue of the order that changed restores the invariant, with true answers only. */
  lemma ResolvedKeepsInv(s: Tracker, order: Id)
    requires Shape(s) && forall o :: o != order ==> Unanswerable(s, o)
    ensures Inv(Resolved(s, order))
    ensures s.answered <= Resolved(s, order).answered
    ensures forall a :: a in Resolved(s, order).answered[|s.answered|..] ==> TrueAnswer(s.orders, a)
  {
    forall o
      ensures QueueShape(Resolved(s, order), o) && Unanswerable(Resolved(s, order), o)
    {
      if o != order {
        ResolvedOther(s, order, o);
      } else if order in s.waiters {
        ResolvedQueue(s, order);
      }
    }
    forall id: nat
      ensures TimerQueued(Resolved(s, order), id)
    {
      ResolvedTimers(s, order, id);
    }
    ResolvedAnswers(s, order);
    AnswersAreTrue(s, order);
  }

  lemma AnswersAreTrue(s: Tracker, order: Id)
    ensures s.answered <= Resolved(s, order).answered
    ensures forall a :: a in Resolved(s, order).answered[|s.answered|..] ==> TrueAnswer(s.orders, a)
  {
    if order in s.waiters {
      SettledAre(s.orders, order, s.waiters[order]);
      assert Resolved(s, order).answered[|s.answered|..] == Settled(s.orders, order, s.waiters[order]);
    }
  }

  // ------------------------------------------------------------------ steps

  /** The step answers no one falsely. */
  ghost predicate AnswersTruly(s: Tracker, t: Tracker) {
    s.answered <= t.answered && forall a :: a in t.answered[|s.answered|..] ==> TrueAnswer(t.orders, a)
  }

  /** The part of the tracker the waiters depend on, with one order's state changed. */
  lemma OneOrderChanged(s: Tracker, t: Tracker, order: Id)
    requires Inv(s) && t.waiters == s.waiters && t.timers == s.timers && t.next == s.next && t.answered == s.answered
    requires forall o :: o != order ==> (o in t.orders <==> o in s.orders)
    requires forall o :: o != order && o in s.orders ==> t.orders[o] == s.orders[o]
    ensures Shape(t) && forall o :: o != order ==> Unanswerable(t, o)
  {
    forall o
      ensures QueueShape(t, o)
    {
      assert QueueShape(s, o);
    }
    forall id: nat
      ensures TimerQueued(t, id)
    {
      assert TimerQueued(s, id);
    }
    forall o | o != order
      ensures Unanswerable(t, o)
    {
      assert Unanswerable(s, o);
    }
  }

  lemma BookingKeepsInv(s: Tracker, order: Id, trade: Id, fill: Option<Fill>)
    requires Inv(s)
    ensures Inv(Booking(s, order, trade, fill))
  {
    var t := Booking(s, order, trade, fill);
    OneOrderChanged(s, t, order);
    assert Unanswerable(s, order);
  }

  lemma OrderKeepsInv(s: Tracker, order: Id, update: OrderUpdate, now: int)
    requires Inv(s)
    ensures Inv(Step(s, OrderMessage(order, update, now))) && AnswersTruly(s, Step(s, OrderMessage(order, update, now)))
  {
    hide Inv, Shape, TrueAnswer, AfterOrder;
    var t := s.(orders := s.orders[order := AfterOrder(s.orders, order, update, now)],
                log := s.log + [Reported(order, update.sizeMatched)]);
    OneOrderChanged(s, t, order);
    ResolvedKeepsInv(t, order);
    ResolvedKeepsTotals(t, order, order);
  }

  lemma CountedKeepsInv(s: Tracker, order: Id, trade: Id, amount: real, info: TradeInfo, now: int)
    requires Inv(s)
    ensures Inv(Resolved(WithTrade(s, order, trade, amount, info, now), order))
    ensures AnswersTruly(s, Resolved(WithTrade(s, order, trade, amount, info, now), order))
  {
    hide Inv, Shape, TrueAnswer, AfterTrade;
    var t := WithTrade(s, order, trade, amount, info, now);
    OneOrderChanged(s, t, order);
    ResolvedKeepsInv(t, order);
    ResolvedKeepsTotals(t, order, order);
  }

  lemma TradeKeepsInv(s: Tracker, order: Id, trade: Id, amount: Option<real>, info: TradeInfo, now: int)
    requires Inv(s)
    ensures Inv(Step(s, TradeMatch(order, trade, amount, info, now)))
    ensures AnswersTruly(s, Step(s, TradeMatch(order, trade, amount, info, now)))
  {
    hide Inv, TrueAnswer, Resolved, AfterTrade, FillOf;
    if Counts(s, order, trade, amount) {
      CountedKeepsInv(s, order, trade, amount.value, info, now);
      BookingKeepsInv(Resolved(WithTrade(s, order, trade, amount.value, info, now), order), order, trade,
        FillOf(AfterTrade(s.orders, order, amount.value, info, now), info, amount.value, now));
    } else {
      LoggedKeepsInv(s, Traded(order, trade, amount));
    }
  }

  lemma LoggedKeepsInv(s: Tracker, item: LogItem)
    requires Inv(s)
    ensures Inv(s.(log := s.log + [item]))
  {
    OneOrderChanged(s, s.(log := s.log + [item]), "");
    assert Unanswerable(s, "");
  }

  lemma NewAnswerKeepsInv(s: Tracker, a: Answer)
    requires Inv(s) && a.id == s.next && TrueAnswer(s.orders, a)
    ensures Inv(s.(next := s.next + 1, answered := s.answered + [a]))
    ensures AnswersTruly(s, s.(next := s.next + 1, answered := s.answered + [a]))
  {
    var t := s.(next := s.next + 1, answered := s.answered + [a]);
    forall id: nat
      ensures TimerQueued(t, id)
    {
      assert TimerQueued(s, id);
    }
    forall o
      ensures QueueShape(t, o) && Unanswerable(t, o)
    {
      assert QueueShape(s, o) && Unanswerable(s, o);
    }
    assert s.next !in s.timers by {
      assert TimerQueued(s, s.next);
    }
    assert t.answered[|s.answered|..] == [a];
    forall i | 0 <= i < |s.answered|
      ensures s.answered[i].id < s.next
    {
      assert s.answered[i] in s.answered;
    }
  }

  lemma EnqueueKeepsInv(s: Tracker, order: Id, desiredSize: real, ws: seq<Waiter>)
    requires Inv(s) && Derive(s.orders, order, desiredSize).None?
    requires ws == if order in s.waiters then s.waiters[order] else []
    ensures Inv(s.(next := s.next + 1, timers := s.timers[s.next := order],
                   waiters := s.waiters[order := ws + [Waiter(s.next, desiredSize)]]))
  {
    var t := s.(next := s.next + 1, timers := s.timers[s.next := order],
                waiters := s.waiters[order := ws + [Waiter(s.next, desiredSize)]]);
    forall o
      ensures QueueShape(t, o) && Unanswerable(t, o)
    {
      assert QueueShape(s, o) && Unanswerable(s, o);
      FreshId(s, o);
      if o == order {
        forall i | 0 <= i < |ws|
          ensures ws[i].id < s.next
        {
          assert ws[i] in ws;
        }
      }
    }
    forall id: nat
      ensures TimerQueued(t, id)
    {
      assert TimerQueued(s, id);
      StillQueued(ws, Waiter(s.next, desiredSize), id);
    }
    assert AnswersOk(t);
  }

  lemma FreshId(s: Tracker, order: Id)
    requires Shape(s)
    ensures order in s.waiters ==> forall w :: w in s.waiters[order] ==> w.id < s.next
  {
    assert QueueShape(s, order);
    if order in s.waiters {
      forall w | w in s.waiters[order]
        ensures w.id < s.next
      {
        assert TimerQueued(s, w.id);
      }
    }
  }

  lemma StillQueued(ws: seq<Waiter>, w: Waiter, id: nat)
    ensures id in WaiterIds(ws + [w]) <==> id in WaiterIds(ws) || id == w.id
  {
    assert w in ws + [w];
    if id in WaiterIds(ws) {
      var v :| v in ws && v.id == id;
      assert v in ws + [w];
    }
  }

  lemma WaitKeepsInv(s: Tracker, order: Id, desiredSize: real, timeoutMs: int, now: int)
    requires Inv(s)
    ensures Inv(Waiting(s, order, desiredSize, timeoutMs, now))
      && AnswersTruly(s, Waiting(s, order, desiredSize, timeoutMs, now))
  {
    hide Inv;
    var immediate := Derive(s.orders, order, desiredSize);
    if immediate.Some? {
      NewAnswerKeepsInv(s, Answer(s.next, order, desiredSize, immediate.value));
    } else if timeoutMs <= 0 {
      NewAnswerKeepsInv(s, Answer(s.next, order, desiredSize,
        Outcome(MatchedSize(s.orders, order), false, false, true, now)));
    } else {
      EnqueueKeepsInv(s, order, desiredSize, if order in s.waiters then s.waiters[order] else []);
    }
  }

  // ------------------------------------------------------------------ timeouts

  lemma {:induction false} WithoutWaiterIs(ws: seq<Waiter>, id: nat)
    ensures forall w :: w in WithoutWaiter(ws, id) <==> w in ws && w.id != id
  {
    if ws != [] {
      WithoutWaiterIs(ws[..|ws| - 1], id);
    }
  }

  lemma {:induction false} WithoutWaiterDistinct(ws: seq<Waiter>, id: nat)
    requires DistinctIds(ws)
    ensures DistinctIds(WithoutWaiter(ws, id))
  {
    if ws != [] {
      var front, last := ws[..|ws| - 1], ws[|ws| - 1];
      WithoutWaiterDistinct(front, id);
      WithoutWaiterIs(front, id);
      IdsDiffer(front, WithoutWaiter(front, id), last);
    }
  }

  lemma {:induction false} DesiredInQueue(ws: seq<Waiter>, id: nat)
    requires id in WaiterIds(ws)
    ensures Waiter(id, DesiredIn(ws, id)) in ws
  {
    var last := ws[|ws| - 1];
    assert last == Waiter(last.id, last.desiredSize);
    if last.id != id {
      var w :| w in ws && w.id == id;
      assert w in ws[..|ws| - 1];
      DesiredInQueue(ws[..|ws| - 1], id);
    }
  }

  lemma TimeoutQueues(s: Tracker, id: nat, now: int, o: Id)
    requires Inv(s) && id in s.timers
    ensures QueueShape(TimedOut(s, id, now), o) && Unanswerable(TimedOut(s, id, now), o)
  {
    assert QueueShape(s, o) && Unanswerable(s, o) && TimerQueued(s, id);
    if o in s.waiters {
      WithoutWaiterIs(s.waiters[o], id);
      WithoutWaiterDistinct(s.waiters[o], id);
    }
  }

  lemma TimeoutTimers(s: Tracker, id: nat, now: int, other: nat)
    requires Inv(s) && id in s.timers
    ensures TimerQueued(TimedOut(s, id, now), other)
  {
    assert TimerQueued(s, id) && TimerQueued(s, other);
    if other in s.timers && other != id {
      var order := s.timers[other];
      WithoutWaiterIs(s.waiters[order], id);
      var w :| w in s.waiters[order] && w.id == other;
      assert w in WithoutWaiter(s.waiters[order], id);
    }
  }

  lemma TimeoutAnswer(s: Tracker, id: nat, now: int)
    requires Inv(s) && id in s.timers
    ensures AnswersOk(TimedOut(s, id, now)) && AnswersTruly(s, TimedOut(s, id, now))
  {
    assert TimerQueued(s, id);
    var order := s.timers[id];
    assert Unanswerable(s, order);
    DesiredInQueue(s.waiters[order], id);
    var t := TimedOut(s, id, now);
    assert t.answered[|s.answered|..] == [t.answered[|s.answered|]];
    MoreAnswers(s.answered, [t.answered[|s.answered|]], s.timers.Keys);
  }

  lemma TimeoutKeepsInv(s: Tracker, id: nat, now: int)
    requires Inv(s) && id in s.timers
    ensures Inv(TimedOut(s, id, now)) && AnswersTruly(s, TimedOut(s, id, now))
  {
    forall o
      ensures QueueShape(TimedOut(s, id, now), o) && Unanswerable(TimedOut(s, id, now), o)
    {
      TimeoutQueues(s, id, now, o);
    }
    forall other: nat
      ensures TimerQueued(TimedOut(s, id, now), other)
    {
      TimeoutTimers(s, id, now, other);
    }
    TimeoutAnswer(s, id, now);
  }

  lemma CleanupKeepsInv(s: Tracker, order: Id)
    requires Inv(s)
    ensures Inv(Step(s, Cleanup(order))) && AnswersTruly(s, Step(s, Cleanup(order)))
  {
    var t := Step(s, Cleanup(order));
    assert QueueShape(s, order);
    forall o
      ensures QueueShape(t, o) && Unanswerable(t, o)
    {
      assert QueueShape(s, o) && Unanswerable(s, o);
    }
    forall id: nat
      ensures TimerQueued(t, id)
    {
      assert TimerQueued(s, id);
    }
    assert t.answered[|s.answered|..] == [];
  }

  lemma StepKeepsInv(s: Tracker, move: Move)
    requires Inv(s)
    ensures Inv(Step(s, move)) && AnswersTruly(s, Step(s, move))
  {
    hide Inv, Resolved, Waiting, TimedOut, Booking, AfterOrder, AfterTrade, TrueAnswer;
    match move {
      case OrderMessage(order, update, now) =>
        OrderKeepsInv(s, order, update, now);
      case TradeMatch(order, trade, amount, info, now) =>
        TradeKeepsInv(s, order, trade, amount, info, now);
      case Wait(order, desiredSize, timeoutMs, now) =>
        WaitKeepsInv(s, order, desiredSize, timeoutMs, now);
      case Timeout(id, now) =>
        if id in s.timers {
          TimeoutKeepsInv(s, id, now);
        }
      case Cleanup(order) =>
        CleanupKeepsInv(s, order);
    }
  }

  /**
   * After every message, wait, timeout or cleanup: no queued waiter could already be answered from the
   * stored state, no stored queue is empty, and no waiter has been answered twice.
   */
  lemma {:induction false} RunsKeepInv(portfolio: bool, moves: seq<Move>)
    ensures Inv(Run(portfolio, moves))
  {
    if moves != [] {
      RunsKeepInv(portfolio, moves[..|moves| - 1]);
      StepKeepsInv(Run(portfolio, moves[..|moves| - 1]), moves[|moves| - 1]);
    }
  }

  /** Each answer given by a step is a timeout, or an outcome true of the state after that step. */
  lemma AnswersAreAlwaysTrue(portfolio: bool, moves: seq<Move>, move: Move)
    ensures AnswersTruly(Run(portfolio, moves), Run(portfolio, moves + [move]))
  {
    RunsKeepInv(portfolio, moves);
    assert (moves + [move])[..|moves|] == moves;
    StepKeepsInv(Run(portfolio, moves), move);
  }

  // ------------------------------------------------------------------ what the answers say of the stored orders

  /** All of the desired size has matched, or the status says filled. */
  ghost predicate FullFor(state: OrderState, desiredSize: real) {
    || state.sizeMatched >= desiredSize
    || state.status in {Some(Matched), Some(Filled), Some(Confirmed), Some(Mined)}
  }

  ghost predicate Closed(orders: map<Id, OrderState>, order: Id, desiredSize: real) {
    order in orders && (FullFor(orders[order], desiredSize) || orders[order].cancelled)
  }

  /**
   * An outcome is given of an order that is full or else cancelled, calls it full exactly when it is, and
   * carries its stored size, time and cancelled flag. A timeout is given of an order that is neither, and
   * carries what matched.
   */
  ghost predicate Truthful(orders: map<Id, OrderState>, order: Id, desiredSize: real, o: Outcome) {
    if o.timedOut then
      && !Closed(orders, order, desiredSize) && !o.fullyFilled && !o.cancelled
      && o.sizeMatched == (if order in orders then orders[order].sizeMatched else 0.0)
    else
      && Closed(orders, order, desiredSize)
      && var state := orders[order];
        && (o.fullyFilled <==> FullFor(state, desiredSize)) && o.cancelled == state.cancelled
        && o.sizeMatched == state.sizeMatched && o.observedAtMs == state.lastUpdateMs
  }

  lemma TrueIsTruthful(orders: map<Id, OrderState>, a: Answer)
    requires TrueAnswer(orders, a)
    ensures Truthful(orders, a.order, a.desiredSize, a.outcome)
  {
  }

  /** Over every run, each answer a step gives is truthful of the orders stored after that step. */
  lemma AnswersAreTruthful(portfolio: bool, moves: seq<Move>, move: Move, k: nat)
    requires |Run(portfolio, moves).answered| <= k < |Run(portfolio, moves + [move]).answered|
    ensures var t := Run(portfolio, moves + [move]); var a := t.answered[k];
      Truthful(t.orders, a.order, a.desiredSize, a.outcome)
  {
    hide Truthful, TrueAnswer;
    AnswersAreAlwaysTrue(portfolio, moves, move);
    var t := Run(portfolio, moves + [move]);
    TrueIsTruthful(t.orders, t.answered[k]);
  }

  /** Over every run, a waiter is queued only while its order is neither full for it nor cancelled. */
  lemma QueuedOrdersAreOpen(portfolio: bool, moves: seq<Move>, order: Id, w: Waiter)
    requires order in Run(portfolio, moves).waiters && w in Run(portfolio, moves).waiters[order]
    ensures !Closed(Run(portfolio, moves).orders, order, w.desiredSize)
  {
    RunsKeepInv(portfolio, moves);
    assert Unanswerable(Run(portfolio, moves), order);
  }

  // ------------------------------------------------------------------ who is never answered

  predicate Answered(s: Tracker, id: nat) {
    id in AnswerIds(s.answered)
  }

  /** Every waiter leaves its queue answered, unless a cleanup throws it out. */
  lemma OnlyCleanupAbandons(s: Tracker, move: Move, id: nat)
    requires Inv(s) && id in s.timers && !move.Cleanup?
    ensures id in Step(s, move).timers || Answered(Step(s, move), id)
  {
    match move {
      case OrderMessage(order, update, now) =>
      case TradeMatch(order, trade, amount, info, now) =>
      case Wait(order, desiredSize, timeoutMs, now) =>
      case Timeout(expired, now) =>
        if id == expired {
          var t := TimedOut(s, id, now);
          assert t.answered[|t.answered| - 1].id == id;
        }
    }
  }

  lemma AbandonedStays(s: Tracker, move: Move, id: nat)
    requires Inv(s) && id < s.next && id !in s.timers && !Answered(s, id)
    ensures id !in Step(s, move).timers && !Answered(Step(s, move), id)
  {
    hide Derive, Inv, AfterOrder, AfterTrade, FillOf, Resolved, Waiting;
    match move {
      case OrderMessage(order, update, now) =>
        var t := s.(orders := s.orders[order := AfterOrder(s.orders, order, update, now)],
                    log := s.log + [Reported(order, update.sizeMatched)]);
        ResolvedAnswersNoStranger(s, t, order, id);
      case TradeMatch(order, trade, amount, info, now) =>
        if Counts(s, order, trade, amount) {
          ResolvedAnswersNoStranger(s, WithTrade(s, order, trade, amount.value, info, now), order, id);
        }
      case Wait(order, desiredSize, timeoutMs, now) =>
        WaitingTouchesOne(s, order, desiredSize, timeoutMs, now, id);
      case _ =>
    }
  }

  lemma OneMoreAnswer(answers: seq<Answer>, a: Answer)
    ensures AnswerIds(answers + [a]) == AnswerIds(answers) + {a.id}
  {
  }

  lemma WaitAnswersOne(s: Tracker, order: Id, desiredSize: real, timeoutMs: int, now: int)
    ensures AnswerIds(Waiting(s, order, desiredSize, timeoutMs, now).answered) <= AnswerIds(s.answered) + {s.next}
    ensures AnswerIds(s.answered) <= AnswerIds(Waiting(s, order, desiredSize, timeoutMs, now).answered)
  {
    hide Derive, MatchedSize, AnswerIds;
    var t := Waiting(s, order, desiredSize, timeoutMs, now);
    if t.answered != s.answered {
      OneMoreAnswer(s.answered, t.answered[|s.answered|]);
    }
  }

  lemma WaitingTouchesOne(s: Tracker, order: Id, desiredSize: real, timeoutMs: int, now: int, id: nat)
    requires id != s.next
    ensures var t := Waiting(s, order, desiredSize, timeoutMs, now);
      (id in t.timers <==> id in s.timers) && (Answered(t, id) <==> Answered(s, id))
  {
    WaitAnswersOne(s, order, desiredSize, timeoutMs, now);
    hide Derive, MatchedSize, AnswerIds;
  }

  lemma ResolvedAnswersNoStranger(s: Tracker, t: Tracker, order: Id, id: nat)
    requires Inv(s) && id !in s.timers && !Answered(s, id)
    requires t.waiters == s.waiters && t.timers == s.timers && t.answered == s.answered
    ensures id !in Resolved(t, order).timers && !Answered(Resolved(t, order), id)
  {
    assert QueueShape(s, order);
    if order in t.waiters {
      SettledAre(t.orders, order, t.waiters[order]);
    }
  }

  /** No longer queued, and never told anything. */
  predicate Abandoned(s: Tracker, id: nat) {
    id < s.next && id !in s.timers && !Answered(s, id)
  }

  lemma AnswersStay(s: Tracker, move: Move, id: nat)
    requires Inv(s) && Answered(s, id)
    ensures Answered(Step(s, move), id)
  {
    StepKeepsInv(s, move);
    var a :| a in s.answered && a.id == id;
    var i :| 0 <= i < |s.answered| && s.answered[i] == a;
    hide Inv, Step;
    assert Step(s, move).answered[i] == a;
  }

  lemma ResolvedKeepsNext(s: Tracker, order: Id)
    ensures Resolved(s, order).next == s.next
  {
    hide Settled, Unsettled;
  }

  lemma NextNeverFalls(s: Tracker, move: Move)
    ensures s.next <= Step(s, move).next <= s.next + 1
    ensures Step(s, move).next > s.next ==> move.Wait?
  {
    hide Derive, AfterOrder, AfterTrade, FillOf, WithoutWaiter, MatchedSize, Resolved;
    match move {
      case OrderMessage(order, update, now) =>
        ResolvedKeepsNext(s.(orders := s.orders[order := AfterOrder(s.orders, order, update, now)],
          log := s.log + [Reported(order, update.sizeMatched)]), order);
      case TradeMatch(order, trade, amount, info, now) =>
        if Counts(s, order, trade, amount) {
          ResolvedKeepsNext(WithTrade(s, order, trade, amount.value, info, now), order);
        }
      case _ =>
    }
  }

  /** A new waiter is queued with its timer or told at once. */
  lemma NewWaiterIsKept(s: Tracker, move: Move)
    requires Step(s, move).next > s.next
    ensures s.next in Step(s, move).timers || Answered(Step(s, move), s.next)
  {
    NextNeverFalls(s, move);
    hide Derive, MatchedSize;
    var t := Step(s, move);
    if s.next !in t.timers {
      assert t.answered[|t.answered| - 1].id == s.next;
    }
  }

  /** A cleanup throws out exactly the waiters of its order. */
  lemma CleanupThrowsOut(s: Tracker, order: Id, id: nat)
    requires Inv(s) && id in s.timers
    ensures Abandoned(Step(s, Cleanup(order)), id) <==> s.timers[id] == order
    ensures s.timers[id] != order ==> id in Step(s, Cleanup(order)).timers
  {
    assert TimerQueued(s, id) && QueueShape(s, order);
  }

  /** Cleanup number `i` of the run threw the waiter out of its queue. */
  predicate ThrownOut(portfolio: bool, moves: seq<Move>, i: nat, id: nat)
    requires i < |moves|
  {
    var s := Run(portfolio, moves[..i]);
    moves[i].Cleanup? && id in s.timers && s.timers[id] == moves[i].order
  }

  ghost predicate EverThrownOut(portfolio: bool, moves: seq<Move>, id: nat) {
    exists i :: 0 <= i < |moves| && ThrownOut(portfolio, moves, i, id)
  }

  lemma ThrownOutBefore(portfolio: bool, moves: seq<Move>, i: nat, id: nat)
    requires i < |moves| - 1
    ensures ThrownOut(portfolio, moves[..|moves| - 1], i, id) <==> ThrownOut(portfolio, moves, i, id)
  {
    assert moves[..|moves| - 1][..i] == moves[..i];
  }

  lemma EverThrownOutLast(portfolio: bool, moves: seq<Move>, id: nat)
    requires moves != []
    ensures EverThrownOut(portfolio, moves, id) <==>
      EverThrownOut(portfolio, moves[..|moves| - 1], id) || ThrownOut(portfolio, moves, |moves| - 1, id)
  {
    hide ThrownOut;
    var front := moves[..|moves| - 1];
    forall i: nat | i < |front|
      ensures ThrownOut(portfolio, front, i, id) <==> ThrownOut(portfolio, moves, i, id)
    {
      ThrownOutBefore(portfolio, moves, i, id);
    }
  }

  lemma {:induction false} ThrownOutWasIssued(portfolio: bool, moves: seq<Move>, id: nat)
    requires EverThrownOut(portfolio, moves, id)
    ensures id < Run(portfolio, moves).next
  {
    var front, s := moves[..|moves| - 1], Run(portfolio, moves[..|moves| - 1]);
    NextNeverFalls(s, moves[|moves| - 1]);
    EverThrownOutLast(portfolio, moves, id);
    if EverThrownOut(portfolio, front, id) {
      ThrownOutWasIssued(portfolio, front, id);
    } else {
      RunsKeepInv(portfolio, front);
      assert TimerQueued(s, id);
    }
  }

  /** One more move abandons a waiter issued before exactly when it is a cleanup of the waiter's order. */
  lemma StepAbandonsIff(s: Tracker, move: Move, id: nat)
    requires Inv(s) && id < s.next
    ensures Abandoned(Step(s, move), id) <==>
      Abandoned(s, id) || (move.Cleanup? && id in s.timers && s.timers[id] == move.order)
  {
    hide Inv, Step;
    NextNeverFalls(s, move);
    if Answered(s, id) {
      AnswersStay(s, move, id);
      AnsweredHasNoTimer(s, id);
    } else if id !in s.timers {
      AbandonedStays(s, move, id);
    } else if move.Cleanup? {
      CleanupThrowsOut(s, move.order, id);
    } else {
      OnlyCleanupAbandons(s, move, id);
    }
  }

  lemma AnsweredHasNoTimer(s: Tracker, id: nat)
    requires Inv(s) && Answered(s, id)
    ensures id !in s.timers
  {
  }

  /**
   * Over every run a waiter is neither pending nor ever answered if and only if a cleanup of its order
   * came while it was queued.
   */
  lemma {:induction false} AbandonedIff(portfolio: bool, moves: seq<Move>, id: nat)
    requires id < Run(portfolio, moves).next
    ensures Abandoned(Run(portfolio, moves), id) <==> EverThrownOut(portfolio, moves, id)
  {
    if moves != [] {
      var front, move := moves[..|moves| - 1], moves[|moves| - 1];
      var s := Run(portfolio, front);
      RunsKeepInv(portfolio, front);
      EverThrownOutLast(portfolio, moves, id);
      NextNeverFalls(s, move);
      if id < s.next {
        AbandonedIff(portfolio, front, id);
        StepAbandonsIff(s, move, id);
      } else {
        NewWaiterIsKept(s, move);
        NotThrownOutYet(portfolio, front, id);
      }
      hide Step, Inv;
    }
  }

  /** Nobody waits or was told anything yet, and of this order only trades were reported. */
  predicate OnlyTraded(s: Tracker, order: Id, amount: real) {
    && s.waiters == map[] && s.answered == [] && s.next == 0
    && order in s.orders && s.orders[order].orderMatched.None? && !s.orders[order].cancelled
    && s.orders[order].tradeMatched == amount && s.orders[order].sizeMatched == amount
  }

  lemma FirstTrade(portfolio: bool, order: Id, trade: Id, amount: real, info: TradeInfo, at: int)
    requires amount > 0.0
    ensures OnlyTraded(Step(Initial(portfolio), TradeMatch(order, trade, Some(amount), info, at)), order, amount)
  {
    hide FillOf;
  }

  lemma ThenMatched(s: Tracker, order: Id, amount: real, update: OrderUpdate, at: int)
    requires OnlyTraded(s, order, amount) && amount > 0.0
    requires update == OrderUpdate(None, None, None, None, None, Some(Matched), false, None)
    ensures var t := Step(s, OrderMessage(order, update, at));
      OnlyTraded(t, order, amount) && t.orders[order].status == Some(Matched) && t.orders[order].lastUpdateMs == at
  {
  }

  lemma ThenWait(s: Tracker, order: Id, amount: real, desiredSize: real, timeoutMs: int, at: int)
    requires OnlyTraded(s, order, amount) && s.orders[order].status == Some(Matched)
    ensures Step(s, Wait(order, desiredSize, timeoutMs, at)).answered
      == [Answer(0, order, desiredSize, Outcome(amount, true, false, false, s.orders[order].lastUpdateMs))]
  {
  }

  /**
   * A trade of a part, then a message that the order is matched without saying how much: the caller is
   * told that the order is full and that the part is what it matched.
   */
  lemma FullWithPartReported(portfolio: bool, order: Id, trade: Id, amount: real, info: TradeInfo, desiredSize: real,
      timeoutMs: int, at: int)
    requires 0.0 < amount < desiredSize
    ensures var update := OrderUpdate(None, None, None, None, None, Some(Matched), false, None);
      Run(portfolio, [TradeMatch(order, trade, Some(amount), info, at), OrderMessage(order, update, at),
          Wait(order, desiredSize, timeoutMs, at)]).answered
      == [Answer(0, order, desiredSize, Outcome(amount, true, false, false, at))]
  {
    var traded := TradeMatch(order, trade, Some(amount), info, at);
    var update := OrderUpdate(None, None, None, None, None, Some(Matched), false, None);
    var told, wait := OrderMessage(order, update, at), Wait(order, desiredSize, timeoutMs, at);
    StepsPush(Initial(portfolio), [], traded);
    StepsPush(Initial(portfolio), [traded], told);
    StepsPush(Initial(portfolio), [traded, told], wait);
    assert Steps(Initial(portfolio), []) == Initial(portfolio);
    assert [] + [traded] == [traded] && [traded] + [told] == [traded, told];
    assert [traded, told] + [wait] == [traded, told, wait];
    FirstTrade(portfolio, order, trade, amount, info, at);
    ThenMatched(Step(Initial(portfolio), traded), order, amount, update, at);
    ThenWait(Step(Step(Initial(portfolio), traded), told), order, amount, desiredSize, timeoutMs, at);
    hide Step, OnlyTraded;
  }

  /** For instance: one wait, then the cleanup of its order. */
  lemma CleanupAbandons(portfolio: bool, order: Id, desiredSize: real, timeoutMs: int, now: int)
    requires timeoutMs > 0
    ensures Abandoned(Run(portfolio, [Wait(order, desiredSize, timeoutMs, now), Cleanup(order)]), 0)
  {
    var wait := Wait(order, desiredSize, timeoutMs, now);
    StepsPush(Initial(portfolio), [], wait);
    StepsPush(Initial(portfolio), [wait], Cleanup(order));
    assert [] + [wait] == [wait] && [wait] + [Cleanup(order)] == [wait, Cleanup(order)];
  }

  lemma NotThrownOutYet(portfolio: bool, moves: seq<Move>, id: nat)
    requires id >= Run(portfolio, moves).next
    ensures !EverThrownOut(portfolio, moves, id)
  {
    if EverThrownOut(portfolio, moves, id) {
      ThrownOutWasIssued(portfolio, moves, id);
    }
  }
}

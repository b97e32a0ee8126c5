/** The supervisor's ledger of markets and capital held by running attempts. */
module Reservations {
  import opened Prelude

  /** A running attempt and what it reserved. */
  datatype Attempt = Attempt(markets: set<string>, required: real)

  datatype Ledger = Ledger(inFlight: set<string>, capital: real, running: seq<Attempt>)

  /** Zero switches a limit off. */
  datatype Limits = Limits(maxMarkets: int, maxCapital: real)

  /** An approved opportunity: its markets, its size, the cost per set of each, and the circuit breakers' answer. */
  datatype Request = Request(basket: seq<string>, size: real, costsPerSet: seq<real>, circuitOpen: bool)

  datatype Verdict = Reserved | CircuitOpen | TooManyMarkets | TooMuchCapital | MarketInFlight

  datatype Move = Begin(request: Request) | End(index: nat)

  function Sum(costs: seq<real>): real {
    if costs == [] then 0.0 else Sum(costs[..|costs| - 1]) + costs[|costs| - 1]
  }

  function Required(q: Request): real {
    Max(0.0, q.size * Sum(q.costsPerSet))
  }

  function Markets(s: seq<string>): set<string> {
    set m | m in s
  }

  /** How many entries of the basket are not in flight, repeats counted. */
  function NewReservations(basket: seq<string>, inFlight: set<string>): nat {
    if basket == [] then 0
    else NewReservations(basket[1..], inFlight) + if basket[0] in inFlight then 0 else 1
  }

  function Decide(l: Ledger, limits: Limits, q: Request): Verdict {
    if q.circuitOpen then CircuitOpen
    else if limits.maxMarkets > 0 && |l.inFlight| + NewReservations(q.basket, l.inFlight) > limits.maxMarkets then
      TooManyMarkets
    else if limits.maxCapital > 0.0 && Required(q) > 0.0 && l.capital + Required(q) > limits.maxCapital then
      TooMuchCapital
    else if exists m :: m in q.basket && m in l.inFlight then MarketInFlight
    else Reserved
  }

  function Started(l: Ledger, q: Request): Ledger {
    Ledger(l.inFlight + Markets(q.basket), l.capital + Required(q),
      l.running + [Attempt(Markets(q.basket), Required(q))])
  }

  function Finished(l: Ledger, index: nat): Ledger
    requires index < |l.running|
  {
    var a := l.running[index];
    Ledger(l.inFlight - a.markets, Max(0.0, l.capital - a.required), l.running[..index] + l.running[index + 1..])
  }

  function Step(l: Ledger, limits: Limits, move: Move): Ledger {
    match move
    case Begin(q) => if Decide(l, limits, q) == Reserved then Started(l, q) else l
    case End(index) => if index < |l.running| then Finished(l, index) else l
  }

  function Run(l: Ledger, limits: Limits, moves: seq<Move>): Ledger {
    if moves == [] then l else Step(Run(l, limits, moves[..|moves| - 1]), limits, moves[|moves| - 1])
  }

  function Total(running: seq<Attempt>): real {
    if running == [] then 0.0 else Total(running[..|running| - 1]) + running[|running| - 1].required
  }

  function Held(running: seq<Attempt>): set<string> {
    if running == [] then {} else Held(running[..|running| - 1]) + running[|running| - 1].markets
  }

  /** No two running attempts share a market. */
  predicate Disjoint(running: seq<Attempt>) {
    running == [] ||
    (Disjoint(running[..|running| - 1]) && running[|running| - 1].markets !! Held(running[..|running| - 1]))
  }

  /** What every interleaving of attempts keeps. */
  ghost predicate Balanced(l: Ledger, limits: Limits) {
    && Disjoint(l.running)
    && l.inFlight == Held(l.running)
    && l.capital == Total(l.running)
    && (forall a :: a in l.running ==> a.required >= 0.0)
    && (limits.maxMarkets > 0 ==> |l.inFlight| <= limits.maxMarkets)
    && (limits.maxCapital > 0.0 ==> l.capital <= limits.maxCapital)
  }

  lemma {:induction false} UnionSize(basket: seq<string>, inFlight: set<string>)
    ensures |inFlight + Markets(basket)| <= |inFlight| + NewReservations(basket, inFlight)
  {
    if basket == [] {
      assert inFlight + Markets(basket) == inFlight;
    } else {
      UnionSize(basket[1..], inFlight);
      var rest := inFlight + Markets(basket[1..]);
      assert basket == [basket[0]] + basket[1..];
      assert inFlight + Markets(basket) == rest + {basket[0]};
    }
  }

  lemma {:induction false} TotalIsNonNegative(running: seq<Attempt>)
    requires forall a :: a in running ==> a.required >= 0.0
    ensures Total(running) >= 0.0
  {
    if running != [] {
      TotalIsNonNegative(running[..|running| - 1]);
    }
  }

  lemma Push(s: seq<Attempt>, x: Attempt)
    ensures Disjoint(s + [x]) <==> Disjoint(s) && x.markets !! Held(s)
    ensures Held(s + [x]) == Held(s) + x.markets
    ensures Total(s + [x]) == Total(s) + x.required
  {
    assert (s + [x])[..|s|] == s;
  }

  /** Taking one attempt out of the middle leaves the others disjoint, from each other and from it. */
  lemma {:induction false} RemoveOne(a: seq<Attempt>, x: Attempt, b: seq<Attempt>)
    requires Disjoint(a + [x] + b)
    ensures Disjoint(a + b) && x.markets !! Held(a + b)
    ensures Held(a + [x] + b) == Held(a + b) + x.markets
    ensures Total(a + [x] + b) == Total(a + b) + x.required
  {
    if b == [] {
      assert a + [x] + b == a + [x] && a + b == a;
      Push(a, x);
    } else {
      var front, last := b[..|b| - 1], b[|b| - 1];
      assert a + [x] + b == (a + [x] + front) + [last];
      assert a + b == (a + front) + [last];
      Push(a + [x] + front, last);
      Push(a + front, last);
      RemoveOne(a, x, front);
    }
  }

  lemma StartKeepsBalance(l: Ledger, limits: Limits, q: Request)
    requires Balanced(l, limits) && Decide(l, limits, q) == Reserved
    ensures Balanced(Started(l, q), limits)
  {
    var next := Started(l, q);
    assert next.running[..|l.running|] == l.running;
    UnionSize(q.basket, l.inFlight);
  }

  lemma FinishKeepsBalance(l: Ledger, limits: Limits, index: nat)
    requires Balanced(l, limits) && index < |l.running|
    ensures Balanced(Finished(l, index), limits)
    ensures Finished(l, index).capital == l.capital - l.running[index].required
  {
    var a, x, b := l.running[..index], l.running[index], l.running[index + 1..];
    assert l.running == a + [x] + b;
    RemoveOne(a, x, b);
    TotalIsNonNegative(a + b);
    assert l.inFlight - x.markets == Held(a + b);
    SubsetSize(l.inFlight - x.markets, l.inFlight);
  }

  /** Every interleaving of starts and finishes keeps the ledger balanced within both limits. */
  lemma {:induction false} RunsStayBalanced(limits: Limits, moves: seq<Move>)
    ensures Balanced(Run(Ledger({}, 0.0, []), limits, moves), limits)
  {
    if moves != [] {
      var before := moves[..|moves| - 1];
      RunsStayBalanced(limits, before);
      var l := Run(Ledger({}, 0.0, []), limits, before);
      match moves[|moves| - 1] {
        case Begin(q) =>
          if Decide(l, limits, q) == Reserved {
            StartKeepsBalance(l, limits, q);
          }
        case End(index) =>
          if index < |l.running| {
            FinishKeepsBalance(l, limits, index);
          }
      }
    }
  }

  /** With nothing running, nothing is held. */
  lemma IdleHoldsNothing(limits: Limits, moves: seq<Move>)
    requires Run(Ledger({}, 0.0, []), limits, moves).running == []
    ensures Run(Ledger({}, 0.0, []), limits, moves) == Ledger({}, 0.0, [])
  {
    RunsStayBalanced(limits, moves);
    var l := Run(Ledger({}, 0.0, []), limits, moves);
    assert l.inFlight == {};
  }

  /** Two attempts running at once never hold the same market, and each holds only markets in flight. */
  lemma {:induction false} RunningAttemptsAreDisjoint(running: seq<Attempt>, i: nat, j: nat)
    requires Disjoint(running) && i < j < |running|
    ensures running[i].markets !! running[j].markets
    ensures running[i].markets <= Held(running)
  {
    var front := running[..|running| - 1];
    assert running == front + [running[|running| - 1]];
    if j < |front| {
      RunningAttemptsAreDisjoint(front, i, j);
    } else {
      HeldContains(front, i);
    }
  }

  lemma {:induction false} HeldContains(running: seq<Attempt>, i: nat)
    requires i < |running|
    ensures running[i].markets <= Held(running)
  {
    if i < |running| - 1 {
      HeldContains(running[..|running| - 1], i);
    }
  }

  /** The supervisor's fields; an attempt holds its reservation between `TryReserve` and `Release`. */
  /** The places of the basket whose market is not in flight; a market named twice counts twice. */
  ghost function NewEntries(basket: seq<string>, inFlight: set<string>): set<int> {
    set k | 0 <= k < |basket| && basket[k] !in inFlight
  }

  lemma {:induction false} NewPush(front: seq<string>, last: string, inFlight: set<string>)
    ensures NewReservations(front + [last], inFlight)
      == NewReservations(front, inFlight) + if last in inFlight then 0 else 1
  {
    if front == [] {
      assert [] + [last] == [last];
    } else {
      NewPush(front[1..], last, inFlight);
      assert (front + [last])[1..] == front[1..] + [last];
    }
  }

  lemma {:induction false} EntriesNew(basket: seq<string>, inFlight: set<string>)
    ensures |NewEntries(basket, inFlight)| == NewReservations(basket, inFlight)
  {
    if basket != [] {
      var n := |basket| - 1;
      var front, last := basket[..n], basket[n];
      assert basket == front + [last];
      EntriesNew(front, inFlight);
      NewPush(front, last, inFlight);
      assert NewEntries(basket, inFlight) == NewEntries(front, inFlight) + if last in inFlight then {} else {n};
    }
  }

  /** The capital a request needs: its size at the costs of all its markets, and never less than nothing. */
  ghost function Needs(q: Request): real {
    var all := q.size * Sum(q.costsPerSet);
    if all < 0.0 then 0.0 else all
  }

  /** Why a request is turned away, the checks in the source's order. */
  ghost predicate Answers(inFlight: set<string>, capital: real, limits: Limits, q: Request, verdict: Verdict) {
    var crowded := limits.maxMarkets > 0 && |inFlight| + |NewEntries(q.basket, inFlight)| > limits.maxMarkets;
    var costly := limits.maxCapital > 0.0 && Needs(q) > 0.0 && capital + Needs(q) > limits.maxCapital;
    if q.circuitOpen then verdict == CircuitOpen
    else if crowded then verdict == TooManyMarkets
    else if costly then verdict == TooMuchCapital
    else if exists m :: m in inFlight && m in q.basket then verdict == MarketInFlight
    else verdict == Reserved
  }

  lemma DecidedAs(l: Ledger, limits: Limits, q: Request)
    ensures Answers(l.inFlight, l.capital, limits, q, Decide(l, limits, q)) && Needs(q) == Required(q)
  {
    EntriesNew(q.basket, l.inFlight);
    hide NewEntries, NewReservations;
  }

  class Supervisor {
    var inFlightMarkets: set<string>
    var capitalInFlight: real
    ghost var running: seq<Attempt>

    ghost function View(): Ledger
      reads this
    {
      Ledger(inFlightMarkets, capitalInFlight, running)
    }

    constructor ()
      ensures View() == Ledger({}, 0.0, [])
    {
      inFlightMarkets, capitalInFlight, running := {}, 0.0, [];
    }

    method TryReserve(limits: Limits, q: Request) returns (verdict: Verdict)
      modifies this
      ensures verdict == old(Decide(View(), limits, q))
      ensures View() == old(Step(View(), limits, Begin(q)))
      ensures Answers(old(inFlightMarkets), old(capitalInFlight), limits, q, verdict)
      ensures verdict != Reserved ==> inFlightMarkets == old(inFlightMarkets) && capitalInFlight == old(capitalInFlight)
      ensures verdict == Reserved ==>
        && inFlightMarkets == old(inFlightMarkets) + (set m | m in q.basket)
        && capitalInFlight == old(capitalInFlight) + Needs(q)
    {
      hide Answers;
      DecidedAs(View(), limits, q);
      if q.circuitOpen {
        return CircuitOpen;
      }
      var added := CountNew(q.basket);
      if limits.maxMarkets > 0 && |inFlightMarkets| + added > limits.maxMarkets {
        return TooManyMarkets;
      }
      var costs := SumCosts(q.costsPerSet);
      var required := Max(0.0, q.size * costs);
      assert required == Required(q) && Markets(q.basket) == set m | m in q.basket;
      hide Required, Sum, Needs, Markets, NewReservations;
      if limits.maxCapital > 0.0 && required > 0.0 && capitalInFlight + required > limits.maxCapital {
        return TooMuchCapital;
      }
      if exists m :: m in q.basket && m in inFlightMarkets {
        return MarketInFlight;
      }
      AddMarkets(q.basket);
      capitalInFlight := capitalInFlight + required;
      running := running + [Attempt(Markets(q.basket), required)];
      return Reserved;
    }

    method SumCosts(costs: seq<real>) returns (sum: real)
      ensures sum == Sum(costs)
    {
      sum := 0.0;
      var i := 0;
      while i < |costs|
        invariant 0 <= i <= |costs|
        invariant sum == Sum(costs[..i])
      {
        assert costs[..i + 1][..i] == costs[..i];
        sum := sum + costs[i];
        i := i + 1;
      }
      assert costs[..i] == costs;
    }

    method AddMarkets(basket: seq<string>)
      modifies this`inFlightMarkets
      ensures inFlightMarkets == old(inFlightMarkets) + Markets(basket)
    {
      var i := 0;
      while i < |basket|
        invariant 0 <= i <= |basket|
        invariant inFlightMarkets == old(inFlightMarkets) + Markets(basket[..i])
      {
        assert basket[..i + 1] == basket[..i] + [basket[i]];
        inFlightMarkets := inFlightMarkets + {basket[i]};
        i := i + 1;
      }
      assert basket[..i] == basket;
    }

    method CountNew(basket: seq<string>) returns (n: nat)
      ensures n == NewReservations(basket, inFlightMarkets)
    {
      n := 0;
      var i := |basket|;
      while i > 0
        invariant 0 <= i <= |basket|
        invariant n == NewReservations(basket[i..], inFlightMarkets)
      {
        i := i - 1;
        assert basket[i..][1..] == basket[i + 1..];
        if basket[i] !in inFlightMarkets {
          n := n + 1;
        }
      }
      assert basket[0..] == basket;
    }

    /** The attempt is over, however it ended. */
    method Release(basket: seq<string>, required: real, ghost index: nat)
      requires index < |running| && running[index] == Attempt(Markets(basket), required)
      modifies this
      ensures View() == old(Finished(View(), index))
      ensures inFlightMarkets == old(inFlightMarkets) - (set m | m in basket)
      ensures capitalInFlight == if old(capitalInFlight) < required then 0.0 else old(capitalInFlight) - required
    {
      var i := 0;
      while i < |basket|
        invariant 0 <= i <= |basket|
        invariant inFlightMarkets == old(inFlightMarkets) - Markets(basket[..i])
        invariant capitalInFlight == old(capitalInFlight) && running == old(running)
      {
        assert basket[..i + 1] == basket[..i] + [basket[i]];
        inFlightMarkets := inFlightMarkets - {basket[i]};
        i := i + 1;
      }
      assert basket[..i] == basket;
      capitalInFlight := Max(0.0, capitalInFlight - required);
      running := running[..index] + running[index + 1..];
    }
  }
}

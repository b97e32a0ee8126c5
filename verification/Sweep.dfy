/** Sweeping the asks of a book: the cheapest way to buy an amount. */
module Sweep {
  import opened Prelude
  import opened OrderBook

  /** What a sweep reports. */
  datatype Swept = Swept(totalCost: real, filledSize: real, averagePrice: real, exhausted: bool)

  function Depth(levels: seq<Level>): real {
    if levels == [] then 0.0 else levels[0].size + Depth(levels[1..])
  }

  function Spend(take: real, price: real): real {
    take * price
  }

  /** The cost of taking `amount` level by level from the front. */
  function Cost(levels: seq<Level>, amount: real): real {
    if levels == [] || amount <= 0.0 then 0.0
    else
      var take := Min(levels[0].size, amount);
      Spend(take, levels[0].price) + Cost(levels[1..], amount - take)
  }

  /** How much of `amount` the levels give, taken the same way. */
  function Filled(levels: seq<Level>, amount: real): real {
    if levels == [] || amount <= 0.0 then 0.0
    else
      var take := Min(levels[0].size, amount);
      take + Filled(levels[1..], amount - take)
  }

  function SweepOf(levels: seq<Level>, size: real): Swept {
    var filled, cost := Filled(levels, size), Cost(levels, size);
    Swept(cost, filled, Average(cost, filled), size > filled)
  }

  function Average(cost: real, filled: real): real {
    if filled > 0.0 then cost / filled else 0.0
  }

  // ------------------------------------------------------------------ the reference: any way of taking

  /** `takes` takes no more than its size from each level. */
  ghost predicate Feasible(levels: seq<Level>, takes: seq<real>) {
    |takes| == |levels| && forall i :: 0 <= i < |takes| ==> 0.0 <= takes[i] <= levels[i].size
  }

  function Taken(takes: seq<real>): real {
    if takes == [] then 0.0 else takes[0] + Taken(takes[1..])
  }

  function Paid(levels: seq<Level>, takes: seq<real>): real
    requires |takes| == |levels|
  {
    if takes == [] then 0.0 else Spend(takes[0], levels[0].price) + Paid(levels[1..], takes[1..])
  }

  ghost predicate PositiveSizes(levels: seq<Level>) {
    forall i :: 0 <= i < |levels| ==> levels[i].size > 0.0
  }

  /** Prices never fall. */
  ghost predicate Ascending(levels: seq<Level>) {
    forall i, j :: 0 <= i < j < |levels| ==> levels[i].price <= levels[j].price
  }

  ghost predicate AtLeast(levels: seq<Level>, price: real) {
    forall i :: 0 <= i < |levels| ==> levels[i].price >= price
  }

  lemma ValidSideIsAscending(levels: seq<Level>)
    requires ValidSide(levels, Ask)
    ensures Ascending(levels) && PositiveSizes(levels)
  {
    forall i, j | 0 <= i < j < |levels|
      ensures levels[i].price <= levels[j].price
    {
      assert ByPrice(Ask)(levels[i]) <= ByPrice(Ask)(levels[j]);
    }
  }

  // ------------------------------------------------------------------ arithmetic

  lemma GrowStep(p: real, q: real, a: real, b: real, u: real, v: real, cu: real, cv: real)
    requires p <= q && a <= b && cv - cu >= Spend(v - u, p)
    ensures (Spend(b, q) + cv) - (Spend(a, q) + cu) >= Spend((b + v) - (a + u), p)
  {
    Scale(p, q, b - a);
    assert (b - a) * q == b * q - a * q;
    assert ((b + v) - (a + u)) * p == (b - a) * p + (v - u) * p;
  }

  lemma Scale(a: real, b: real, k: real)
    requires a <= b && k >= 0.0
    ensures k * a <= k * b
  {
  }

  lemma LeastStep(q: real, a: real, t: real, total: real, ct: real, ca: real)
    requires ct - ca >= Spend((total - t) - (total - a), q)
    ensures Spend(a, q) + ca <= Spend(t, q) + ct
  {
    assert ((total - t) - (total - a)) * q == a * q - t * q;
  }

  // ------------------------------------------------------------------ the cost function

  lemma {:induction false} DepthIsNonNegative(levels: seq<Level>)
    requires PositiveSizes(levels)
    ensures Depth(levels) >= 0.0
  {
    if levels != [] {
      DepthIsNonNegative(levels[1..]);
    }
  }

  /** Each further unit costs at least the lowest price. */
  lemma {:induction false} CostGrows(levels: seq<Level>, price: real, less: real, more: real)
    requires PositiveSizes(levels) && AtLeast(levels, price) && 0.0 <= less <= more <= Depth(levels)
    ensures Cost(levels, more) - Cost(levels, less) >= Spend(more - less, price)
    decreases |levels|
  {
    hide Spend;
    if levels == [] {
      ZeroTimes(more - less, price);
    } else {
      var l, rest := levels[0], levels[1..];
      DepthIsNonNegative(rest);
      var a, b := Min(l.size, less), Min(l.size, more);
      CostGrows(rest, price, less - a, more - b);
      CostSplit(levels, less);
      CostSplit(levels, more);
      GrowStep(price, l.price, a, b, less - a, more - b, Cost(rest, less - a), Cost(rest, more - b));
    }
  }

  lemma ZeroTimes(x: real, y: real)
    requires x == 0.0
    ensures Spend(x, y) == 0.0
  {
  }

  /** The size wanted or all there is, whichever is less. */
  lemma {:induction false} FilledIsMin(levels: seq<Level>, size: real)
    requires PositiveSizes(levels)
    ensures Filled(levels, size) == Min(Max(size, 0.0), Depth(levels))
    decreases |levels|
  {
    DepthIsNonNegative(levels);
    if levels != [] && size > 0.0 {
      DepthIsNonNegative(levels[1..]);
      FilledIsMin(levels[1..], size - Min(levels[0].size, size));
    }
  }

  lemma CostSplit(levels: seq<Level>, amount: real)
    requires levels != [] && amount >= 0.0 && levels[0].size > 0.0
    ensures var a := Min(levels[0].size, amount);
      Cost(levels, amount) == Spend(a, levels[0].price) + Cost(levels[1..], amount - a)
  {
  }

  lemma {:induction false} TakenBound(levels: seq<Level>, takes: seq<real>)
    requires Feasible(levels, takes)
    ensures 0.0 <= Taken(takes) <= Depth(levels)
  {
    if levels != [] {
      TakenBound(levels[1..], takes[1..]);
    }
  }

  /** No way of taking the same amount is cheaper. */
  lemma {:induction false} CostIsLeast(levels: seq<Level>, takes: seq<real>)
    requires PositiveSizes(levels) && Ascending(levels) && Feasible(levels, takes)
    ensures Cost(levels, Taken(takes)) <= Paid(levels, takes)
    decreases |levels|
  {
    hide Spend;
    if levels != [] {
      var l, rest, t := levels[0], levels[1..], takes[0];
      var total := Taken(takes);
      var a := Min(l.size, total);
      TakenBound(rest, takes[1..]);
      CostIsLeast(rest, takes[1..]);
      CostGrows(rest, l.price, total - a, total - t);
      CostSplit(levels, total);
      LeastStep(l.price, a, t, total, Cost(rest, total - t), Cost(rest, total - a));
    }
  }

  /** The amounts the sweep itself takes. */
  function Greedy(levels: seq<Level>, amount: real): (takes: seq<real>)
    ensures |takes| == |levels|
  {
    if levels == [] then []
    else
      var take := Min(levels[0].size, Max(amount, 0.0));
      [take] + Greedy(levels[1..], amount - take)
  }

  /** The sweep is one of the ways: it takes the filled size and pays the cost. */
  lemma {:induction false} GreedyIsFeasible(levels: seq<Level>, amount: real)
    requires PositiveSizes(levels) && amount >= 0.0
    ensures Feasible(levels, Greedy(levels, amount))
    ensures Taken(Greedy(levels, amount)) == Min(amount, Depth(levels))
    ensures Paid(levels, Greedy(levels, amount)) == Cost(levels, amount)
    decreases |levels|
  {
    if levels != [] {
      var take := Min(levels[0].size, amount);
      GreedyIsFeasible(levels[1..], amount - take);
      DepthIsNonNegative(levels[1..]);
      CostSplit(levels, amount);
    }
  }

  /** Sweeping more than the depth costs the same as sweeping all of it. */
  lemma {:induction false} CostOfFilled(levels: seq<Level>, size: real)
    requires PositiveSizes(levels)
    ensures Cost(levels, Filled(levels, size)) == Cost(levels, size)
    decreases |levels|
  {
    FilledIsMin(levels, size);
    DepthIsNonNegative(levels);
    if levels != [] && size > 0.0 {
      var take := Min(levels[0].size, size);
      DepthIsNonNegative(levels[1..]);
      FilledIsMin(levels[1..], size - take);
      CostOfFilled(levels[1..], size - take);
    }
  }

  /**
   * On asks sorted by price the sweep fills min(size, depth), at the least cost over all ways of taking
   * that amount from the levels, and one way does cost exactly that.
   */
  lemma SweepIsOptimal(levels: seq<Level>, size: real, takes: seq<real>)
    requires PositiveSizes(levels) && Ascending(levels) && size >= 0.0
    requires Feasible(levels, takes) && Taken(takes) == SweepOf(levels, size).filledSize
    ensures SweepOf(levels, size).filledSize == Min(size, Depth(levels))
    ensures SweepOf(levels, size).totalCost <= Paid(levels, takes)
    ensures Feasible(levels, Greedy(levels, size)) && Taken(Greedy(levels, size)) == SweepOf(levels, size).filledSize
    ensures Paid(levels, Greedy(levels, size)) == SweepOf(levels, size).totalCost
  {
    DepthIsNonNegative(levels);
    FilledIsMin(levels, size);
    CostIsLeast(levels, takes);
    CostOfFilled(levels, size);
    GreedyIsFeasible(levels, size);
  }

  // ------------------------------------------------------------------ average prices

  lemma CrossStep(p: real, a: real, u: real, v: real, cu: real, cv: real)
    requires Spend(cu, v) <= Spend(cv, u) && cv - cu >= Spend(v - u, p) && a >= 0.0
    ensures Spend(Spend(a, p) + cu, a + v) <= Spend(Spend(a, p) + cv, a + u)
  {
    Scale((v - u) * p, cv - cu, a);
    assert (a * p + cv) * (a + u) - (a * p + cu) * (a + v)
      == (cv * u - cu * v) + (a * (cv - cu) - a * ((v - u) * p));
  }

  lemma HeadOnly(p: real, less: real, more: real, cost: real)
    requires cost >= Spend(more, p) && less >= 0.0
    ensures Spend(Spend(less, p), more) <= Spend(cost, less)
  {
    Scale(more * p, cost, less);
    assert less * p * more == less * (more * p);
    assert cost * less == less * cost;
  }

  /** The first units cost the lowest price each. */
  lemma CostFromZero(levels: seq<Level>, price: real, amount: real)
    requires PositiveSizes(levels) && AtLeast(levels, price) && 0.0 <= amount <= Depth(levels)
    ensures Cost(levels, amount) >= Spend(amount, price)
  {
    hide Spend;
    CostGrows(levels, price, 0.0, amount);
    assert Cost(levels, 0.0) == 0.0;
  }

  /** Cost per unit never falls: the cross-multiplied form. */
  lemma {:induction false} CostIsConvex(levels: seq<Level>, less: real, more: real)
    requires PositiveSizes(levels) && Ascending(levels) && 0.0 < less <= more <= Depth(levels)
    ensures Spend(Cost(levels, less), more) <= Spend(Cost(levels, more), less)
    decreases |levels|
  {
    hide Spend;
    var l, rest := levels[0], levels[1..];
    CostSplit(levels, less);
    if less <= l.size {
      CostFromZero(levels, l.price, more);
      HeadOnly(l.price, less, more, Cost(levels, more));
    } else {
      var u, v := less - l.size, more - l.size;
      CostIsConvex(rest, u, v);
      CostGrows(rest, l.price, u, v);
      CostSplit(levels, more);
      CrossStep(l.price, l.size, u, v, Cost(rest, u), Cost(rest, v));
    }
  }

  lemma DivideBoth(cu: real, u: real, cv: real, v: real)
    requires 0.0 < u && 0.0 < v && Spend(cu, v) <= Spend(cv, u)
    ensures Average(cu, u) <= Average(cv, v)
  {
    assert cu / u == (cu * v) / (u * v) by {
      CancelRight(cu, u, v);
    }
    assert cv / v == (cv * u) / (v * u) by {
      CancelRight(cv, v, u);
    }
    assert u * v == v * u && u * v > 0.0;
    DivideMonotone(cu * v, cv * u, u * v);
  }

  lemma CancelRight(a: real, b: real, k: real)
    requires b > 0.0 && k > 0.0
    ensures a / b == (a * k) / (b * k)
  {
    var q := a / b;
    assert q * b == a;
    assert q * (b * k) == a * k;
    assert b * k > 0.0;
    UniqueQuotient(q, a * k, b * k);
  }

  lemma UniqueQuotient(q: real, a: real, d: real)
    requires d > 0.0 && q * d == a
    ensures a / d == q
  {
  }

  lemma DivideMonotone(a: real, b: real, d: real)
    requires a <= b && d > 0.0
    ensures a / d <= b / d
  {
  }

  /** The average price is at least the best ask. */
  lemma AverageAtLeastBest(levels: seq<Level>, size: real)
    requires PositiveSizes(levels) && Ascending(levels) && levels != [] && size > 0.0
    ensures SweepOf(levels, size).averagePrice >= levels[0].price
  {
    hide Spend, Average;
    var filled := Filled(levels, size);
    FilledIsPositive(levels, size);
    CostFromZero(levels, levels[0].price, filled);
    CostOfFilled(levels, size);
    AverageAtLeast(levels[0].price, filled, Cost(levels, size));
  }

  lemma AverageAtLeast(p: real, filled: real, cost: real)
    requires filled > 0.0 && cost >= Spend(filled, p)
    ensures Average(cost, filled) >= p
  {
    UniqueQuotient(p, filled * p, filled);
    DivideMonotone(filled * p, cost, filled);
  }

  /** The average price never falls as the size grows. */
  lemma AverageNeverFalls(levels: seq<Level>, less: real, more: real)
    requires PositiveSizes(levels) && Ascending(levels) && 0.0 < less <= more && levels != []
    ensures SweepOf(levels, less).averagePrice <= SweepOf(levels, more).averagePrice
  {
    hide Spend, Average;
    var u, v := Filled(levels, less), Filled(levels, more);
    FilledIsPositive(levels, less);
    FilledIsPositive(levels, more);
    CostOfFilled(levels, less);
    CostOfFilled(levels, more);
    CostIsConvex(levels, u, v);
    DivideBoth(Cost(levels, u), u, Cost(levels, v), v);
  }

  lemma FilledIsPositive(levels: seq<Level>, size: real)
    requires PositiveSizes(levels) && levels != [] && size > 0.0
    ensures 0.0 < Filled(levels, size) <= Depth(levels)
    ensures Filled(levels, size) == Min(size, Depth(levels))
  {
    FilledIsMin(levels, size);
    DepthIsNonNegative(levels[1..]);
  }

  // ------------------------------------------------------------------ the top levels

  function TopLevels(levels: seq<Level>, count: nat): seq<Level> {
    if count < |levels| then levels[..count] else levels
  }

  function DepthAtTopLevels(levels: seq<Level>, count: nat): real {
    Depth(TopLevels(levels, count))
  }

  /** An amount within the depth of the top levels is swept from them alone. */
  lemma SweepStaysInTop(levels: seq<Level>, count: nat, size: real)
    requires PositiveSizes(levels) && 0.0 <= size <= DepthAtTopLevels(levels, count)
    ensures SweepOf(levels, size) == SweepOf(TopLevels(levels, count), size)
    ensures SweepOf(levels, size).filledSize == size && !SweepOf(levels, size).exhausted
  {
    TopIsPart(levels, count);
    FilledIsMin(levels, size);
    FilledIsMin(TopLevels(levels, count), size);
    CostInTop(levels, count, size);
  }

  lemma {:induction false} TopIsPart(levels: seq<Level>, count: nat)
    requires PositiveSizes(levels)
    ensures DepthAtTopLevels(levels, count) <= Depth(levels)
    decreases |levels|
  {
    DepthIsNonNegative(levels);
    if levels != [] && count > 0 {
      assert TopLevels(levels, count)[1..] == TopLevels(levels[1..], count - 1);
      TopIsPart(levels[1..], count - 1);
    }
  }

  lemma {:induction false} CostInTop(levels: seq<Level>, count: nat, size: real)
    requires PositiveSizes(levels) && 0.0 <= size <= DepthAtTopLevels(levels, count)
    ensures Cost(levels, size) == Cost(TopLevels(levels, count), size)
    decreases |levels|
  {
    if levels != [] && count > 0 {
      var top, take := TopLevels(levels, count), Min(levels[0].size, size);
      assert top[0] == levels[0] && top[1..] == TopLevels(levels[1..], count - 1);
      DepthIsNonNegative(top[1..]);
      CostInTop(levels[1..], count - 1, size - take);
      CostSplit(levels, size);
      CostSplit(top, size);
    }
  }

  // ------------------------------------------------------------------ the code

  lemma AverageIs(levels: seq<Level>, size: real)
    ensures var r := SweepOf(levels, size);
      if r.filledSize > 0.0 then r.averagePrice * r.filledSize == r.totalCost else r.averagePrice == 0.0
  {
    hide Cost, Filled;
  }

  method SweepCost(asks: seq<Level>, size: real) returns (r: Swept)
    ensures r == SweepOf(asks, size)
    ensures if r.filledSize > 0.0 then r.averagePrice * r.filledSize == r.totalCost else r.averagePrice == 0.0
    ensures r.exhausted <==> r.filledSize < size
  {
    AverageIs(asks, size);
    hide Cost, Filled, Progress, Average;
    var remaining, totalCost, filled := size, 0.0, 0.0;
    var i := 0;
    NothingTaken(asks, size);
    while i < |asks| && remaining > 0.0
      invariant 0 <= i <= |asks|
      invariant Progress(asks, i, size, totalCost, filled, remaining)
    {
      var level := asks[i];
      var take := Min(level.size, remaining);
      TakeStep(asks, i, size, totalCost, filled, remaining);
      totalCost := totalCost + Spend(take, level.price);
      filled := filled + take;
      remaining := remaining - take;
      i := i + 1;
    }
    ProgressDone(asks, i, size, totalCost, filled, remaining);
    r := Swept(totalCost, filled, Average(totalCost, filled), remaining > 0.0);
  }

  /** What is left of the levels would finish the sweep. */
  ghost predicate Progress(asks: seq<Level>, i: nat, size: real, totalCost: real, filled: real, remaining: real) {
    && i <= |asks|
    && totalCost + Cost(asks[i..], remaining) == Cost(asks, size)
    && filled + Filled(asks[i..], remaining) == Filled(asks, size)
    && filled == size - remaining
  }

  lemma NothingTaken(asks: seq<Level>, size: real)
    ensures Progress(asks, 0, size, 0.0, 0.0, size)
  {
    assert asks[0..] == asks;
  }

  lemma TakeStep(asks: seq<Level>, i: nat, size: real, totalCost: real, filled: real, remaining: real)
    requires i < |asks| && remaining > 0.0 && Progress(asks, i, size, totalCost, filled, remaining)
    ensures var take := Min(asks[i].size, remaining);
      Progress(asks, i + 1, size, totalCost + Spend(take, asks[i].price), filled + take, remaining - take)
  {
    hide Spend;
    assert asks[i..][0] == asks[i] && asks[i..][1..] == asks[i + 1..];
  }

  lemma ProgressDone(asks: seq<Level>, i: nat, size: real, totalCost: real, filled: real, remaining: real)
    requires (i == |asks| || remaining <= 0.0) && Progress(asks, i, size, totalCost, filled, remaining)
    ensures totalCost == Cost(asks, size) && filled == Filled(asks, size) && (remaining > 0.0 <==> size > filled)
  {
  }

  method SumTopLevels(levels: seq<Level>, count: nat) returns (sum: real)
    ensures sum == DepthAtTopLevels(levels, count)
  {
    var top := TopLevels(levels, count);
    sum := 0.0;
    var i := 0;
    while i < |top|
      invariant 0 <= i <= |top|
      invariant sum + Depth(top[i..]) == Depth(top)
    {
      assert top[i..][1..] == top[i + 1..];
      sum := sum + top[i].size;
      i := i + 1;
    }
  }
}

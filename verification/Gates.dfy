/** The entry gates on a pair of books, before and after fees. */
module Gates {
  import opened Prelude
  import opened OrderBook
  import opened Sweep

  datatype Policy = Policy(
    edgeRequired: real, maxEdge: real, maxSpread: real, maxBookStalenessMs: Option<int>, orderbookFreshnessMs: int,
    requireFreshBook: bool, maxLegSkewMs: int, topOfBookStabilityMs: int, minDepthLevels: real,
    depthHeadroomFraction: real, depthBufferMultiplier: real, minEdgeTicks: real, entrySlippageToleranceBps: real,
    fallbackTickSize: real)

  datatype Inputs = Inputs(yes: Book, no: Book, policy: Policy, now: int, tickSize: Option<real>)

  datatype Reason =
    | MissingBestAsk | YesBestAskInvalid | NoBestAskInvalid
    | YesBookCrossed | NoBookCrossed | MissingSpread | YesSpreadTooWide | NoSpreadTooWide
    | YesBookStale | NoBookStale | LegSyncSkew | UnstableTopOfBook | YesTickMisaligned | NoTickMisaligned
    | EdgeBelowThreshold | EdgeAboveMax | InsufficientDepth | BelowMinOrderSize | DesiredSizeExceedsDepth
    | InsufficientDepthBuffer | EdgeBelowMinTicks | YesDepthExhausted | YesSlippageExceeded
    | NoDepthExhausted | NoSlippageExceeded | EdgeBelowThresholdAfterFees | EdgeAboveMaxAfterFees

  datatype Base = Base(fatal: bool, reasons: seq<Reason>, yesAsk: real, noAsk: real, yesDepth: real, noDepth: real,
    minOrderSize: real)

  datatype Decision = Decision(
    passed: bool, reasons: seq<Reason>, costPerSet: real, edge: real, edgeInTicks: Option<real>, maxSizeByDepth: real)

  type Venue = string

  datatype FeeModel = FeeModel(takerFeeBps: map<Venue, real>) {
    function TakerFeeFraction(venue: Venue): real {
      (if venue in takerFeeBps then takerFeeBps[venue] else 0.0) / 10000.0
    }

    function NetEdge(venue: Venue, grossEdge: real): real {
      grossEdge - TakerFeeFraction(venue) * 2.0
    }
  }

  function When(condition: bool, reason: Reason): seq<Reason> {
    if condition then [reason] else []
  }

  // ------------------------------------------------------------------ size-independent checks

  /** The remainder of a truncating division, for a positive divisor. */
  function Remainder(x: real, d: real): real
    requires d > 0.0
  {
    if x >= 0.0 then x - d * (x / d).Floor as real else -((-x) - d * ((-x) / d).Floor as real)
  }

  function Abs(x: real): real {
    if x < 0.0 then -x else x
  }

  predicate AlignedToTick(price: real, tick: real) {
    tick > 0.0 && (Remainder(price, tick) < 0.000000001 || Abs(Remainder(price, tick) - tick) < 0.000000001)
  }

  function Spread(book: Book): Option<real> {
    if book.bestBid.None? || book.bestAsk.None? then None
    else Some(Max(book.bestAsk.value.price - book.bestBid.value.price, 0.0))
  }

  predicate AskOk(book: Book) {
    book.bestAsk.Some? && 0.0 < book.bestAsk.value.price <= 1.0
  }

  predicate Crossed(book: Book) {
    book.bestBid.Some? && book.bestAsk.Some? && book.bestBid.value.price > book.bestAsk.value.price
  }

  function Staleness(now: int, book: Book): int {
    MaxInt(0, now - book.lastUpdateMs)
  }

  predicate Stale(p: Policy, now: int, book: Book) {
    p.requireFreshBook && Staleness(now, book) > p.maxBookStalenessMs.GetOr(p.orderbookFreshnessMs)
  }

  predicate Wide(p: Policy, book: Book) {
    Spread(book).Some? && Spread(book).value > p.maxSpread
  }

  predicate Skewed(p: Policy, yes: Book, no: Book) {
    p.maxLegSkewMs > 0 && AbsInt(yes.lastUpdateMs - no.lastUpdateMs) > p.maxLegSkewMs
  }

  predicate Unstable(p: Policy, now: int, yes: Book, no: Book) {
    now - yes.stableSinceMs < p.topOfBookStabilityMs || now - no.stableSinceMs < p.topOfBookStabilityMs
  }

  function DepthLevels(p: Policy): nat {
    MaxInt(1, p.minDepthLevels.Floor)
  }

  function SpreadReasons(p: Policy, yes: Book, no: Book): seq<Reason> {
    if Spread(yes).None? || Spread(no).None? then [MissingSpread]
    else When(Wide(p, yes), YesSpreadTooWide) + When(Wide(p, no), NoSpreadTooWide)
  }

  function TimeReasons(p: Policy, now: int, yes: Book, no: Book): seq<Reason> {
    When(Stale(p, now, yes), YesBookStale) + When(Stale(p, now, no), NoBookStale)
    + When(Skewed(p, yes, no), LegSyncSkew) + When(Unstable(p, now, yes, no), UnstableTopOfBook)
  }

  function TickReasons(yes: Book, no: Book): seq<Reason>
    requires AskOk(yes) && AskOk(no)
  {
    When(!AlignedToTick(yes.bestAsk.value.price, yes.tickSize), YesTickMisaligned)
    + When(!AlignedToTick(no.bestAsk.value.price, no.tickSize), NoTickMisaligned)
  }

  function CrossReasons(yes: Book, no: Book): seq<Reason> {
    When(Crossed(yes), YesBookCrossed) + When(Crossed(no), NoBookCrossed)
  }

  function BookReasons(i: Inputs): seq<Reason>
    requires AskOk(i.yes) && AskOk(i.no)
  {
    CrossReasons(i.yes, i.no) + SpreadReasons(i.policy, i.yes, i.no)
    + TimeReasons(i.policy, i.now, i.yes, i.no) + TickReasons(i.yes, i.no)
  }

  function BaseOf(i: Inputs): Base {
    if i.yes.bestAsk.None? || i.no.bestAsk.None? then Base(true, [MissingBestAsk], 0.0, 0.0, 0.0, 0.0, 0.0)
    else
      var yesAsk, noAsk := i.yes.bestAsk.value.price, i.no.bestAsk.value.price;
      if !AskOk(i.yes) || !AskOk(i.no) then
        Base(true, When(!AskOk(i.yes), YesBestAskInvalid) + When(!AskOk(i.no), NoBestAskInvalid),
          yesAsk, noAsk, 0.0, 0.0, 0.0)
      else
        Base(false,
          BookReasons(i), yesAsk, noAsk,
          DepthAtTopLevels(i.yes.asks, DepthLevels(i.policy)), DepthAtTopLevels(i.no.asks, DepthLevels(i.policy)),
          Max(i.yes.minOrderSize, i.no.minOrderSize))
  }

  // ------------------------------------------------------------------ size-dependent checks

  function EdgeReasons(p: Policy, edge: real): seq<Reason> {
    When(edge < p.edgeRequired, EdgeBelowThreshold) + When(edge > p.maxEdge, EdgeAboveMax)
  }

  predicate ExceedsDepth(size: Option<real>, maxSize: real) {
    size.Some? && size.value > maxSize
  }

  predicate BufferMissing(size: Option<real>, maxSize: real, multiplier: real) {
    size.Some? && size.value > 0.0 && multiplier > 0.0 && maxSize < Spend(size.value, multiplier)
  }

  function DepthReasons(maxSize: real, minOrderSize: real, size: Option<real>, multiplier: real): seq<Reason> {
    When(maxSize <= 0.0, InsufficientDepth) + When(maxSize < minOrderSize, BelowMinOrderSize)
    + When(ExceedsDepth(size, maxSize), DesiredSizeExceedsDepth)
    + When(BufferMissing(size, maxSize, multiplier), InsufficientDepthBuffer)
  }

  function PositiveOnly(x: Option<real>): real {
    if x.Some? && x.value > 0.0 then x.value else 0.0
  }

  /** The largest positive candidate, or zero. */
  function ResolveTickSize(given: Option<real>, books: real, fallback: real): real {
    Max(PositiveOnly(given), Max(PositiveOnly(Some(books)), PositiveOnly(Some(fallback))))
  }

  function TickSizeOf(i: Inputs): real {
    ResolveTickSize(i.tickSize, Max(i.yes.tickSize, i.no.tickSize), i.policy.fallbackTickSize)
  }

  function EdgeInTicks(edge: real, tick: real): Option<real> {
    if tick > 0.0 then Some(edge / tick) else None
  }

  predicate TooFewTicks(minEdgeTicks: real, ticks: Option<real>) {
    minEdgeTicks > 0.0 && ticks.Some? && ticks.value < minEdgeTicks
  }

  /** How far the average price of a sweep is above the ask, relative to the ask. */
  function Slippage(average: real, ask: real): real {
    if ask > 0.0 then (average - ask) / ask else 0.0
  }

  function SlippageReasons(asks: seq<Level>, ask: real, size: Option<real>, tolerance: real, exhausted: Reason,
        exceeded: Reason): seq<Reason>
  {
    if size.None? || size.value <= 0.0 then []
    else
      var sweep := SweepOf(asks, size.value);
      When(sweep.exhausted, exhausted) + When(Slippage(sweep.averagePrice, ask) > tolerance, exceeded)
  }

  function Tolerance(p: Policy): real {
    p.entrySlippageToleranceBps / 10000.0
  }

  function MaxSize(p: Policy, b: Base): real {
    Spend(Min(b.yesDepth, b.noDepth), p.depthHeadroomFraction)
  }

  function ThresholdReasons(i: Inputs, b: Base, size: Option<real>): seq<Reason> {
    var edge := 1.0 - (b.yesAsk + b.noAsk);
    EdgeReasons(i.policy, edge)
    + DepthReasons(MaxSize(i.policy, b), b.minOrderSize, size, i.policy.depthBufferMultiplier)
    + When(TooFewTicks(i.policy.minEdgeTicks, EdgeInTicks(edge, TickSizeOf(i))), EdgeBelowMinTicks)
  }

  function SweepReasons(i: Inputs, b: Base, size: Option<real>): seq<Reason> {
    SlippageReasons(i.yes.asks, b.yesAsk, size, Tolerance(i.policy), YesDepthExhausted, YesSlippageExceeded)
    + SlippageReasons(i.no.asks, b.noAsk, size, Tolerance(i.policy), NoDepthExhausted, NoSlippageExceeded)
  }

  function SizeReasons(i: Inputs, b: Base, size: Option<real>): seq<Reason> {
    ThresholdReasons(i, b, size) + SweepReasons(i, b, size)
  }

  function Gates(i: Inputs, size: Option<real>): Decision {
    var b := BaseOf(i);
    if b.fatal then Decision(false, b.reasons, 0.0, 0.0, None, 0.0)
    else
      var reasons := b.reasons + SizeReasons(i, b, size);
      var edge := 1.0 - (b.yesAsk + b.noAsk);
      Decision(reasons == [], reasons, b.yesAsk + b.noAsk, edge, EdgeInTicks(edge, TickSizeOf(i)), MaxSize(i.policy, b))
  }

  function GatesWithFees(i: Inputs, size: Option<real>, fees: FeeModel, venue: Venue): Decision {
    var base := Gates(i, size);
    if base.reasons != [] then base
    else
      var net := fees.NetEdge(venue, base.edge);
      var reasons := When(net < i.policy.edgeRequired, EdgeBelowThresholdAfterFees)
        + When(net > i.policy.maxEdge, EdgeAboveMaxAfterFees);
      base.(edge := net, edgeInTicks := Or(EdgeInTicks(net, TickSizeOf(i)), base.edgeInTicks), reasons := reasons,
        passed := reasons == [])
  }

  // ------------------------------------------------------------------ what passing means

  /** Nothing in the books' prices, times or ticks stands in the way. */
  predicate BaseOk(i: Inputs) {
    && AskOk(i.yes) && AskOk(i.no) && !Crossed(i.yes) && !Crossed(i.no)
    && i.yes.bestBid.Some? && i.no.bestBid.Some? && !Wide(i.policy, i.yes) && !Wide(i.policy, i.no)
    && !Stale(i.policy, i.now, i.yes) && !Stale(i.policy, i.now, i.no)
    && !Skewed(i.policy, i.yes, i.no) && !Unstable(i.policy, i.now, i.yes, i.no)
    && AlignedToTick(i.yes.bestAsk.value.price, i.yes.tickSize)
    && AlignedToTick(i.no.bestAsk.value.price, i.no.tickSize)
  }

  predicate EdgeOk(i: Inputs, edge: real) {
    i.policy.edgeRequired <= edge <= i.policy.maxEdge
      && !TooFewTicks(i.policy.minEdgeTicks, EdgeInTicks(edge, TickSizeOf(i)))
  }

  predicate DepthOk(p: Policy, b: Base, size: Option<real>) {
    && MaxSize(p, b) > 0.0 && MaxSize(p, b) >= b.minOrderSize
    && !ExceedsDepth(size, MaxSize(p, b)) && !BufferMissing(size, MaxSize(p, b), p.depthBufferMultiplier)
  }

  /** The whole size can be swept at an average within the tolerance of the ask. */
  predicate SweepOk(asks: seq<Level>, ask: real, size: Option<real>, tolerance: real) {
    size.Some? && size.value > 0.0 ==>
      !SweepOf(asks, size.value).exhausted && Slippage(SweepOf(asks, size.value).averagePrice, ask) <= tolerance
  }

  lemma BasePassesIff(i: Inputs)
    ensures !BaseOf(i).fatal && BaseOf(i).reasons == [] <==> BaseOk(i)
  {
    hide AlignedToTick, Stale, Skewed, Unstable;
  }

  /** The gates pass exactly when every condition holds. */
  lemma PassIff(i: Inputs, size: Option<real>)
    ensures var b := BaseOf(i); var edge := 1.0 - (b.yesAsk + b.noAsk);
      Gates(i, size).passed <==>
        BaseOk(i) && EdgeOk(i, edge) && DepthOk(i.policy, b, size)
        && SweepOk(i.yes.asks, b.yesAsk, size, Tolerance(i.policy))
        && SweepOk(i.no.asks, b.noAsk, size, Tolerance(i.policy))
  {
    BasePassesIff(i);
    SizePassesIff(i, BaseOf(i), size);
    hide BaseOf, BaseOk, SizeReasons, EdgeOk, DepthOk, SweepOk;
  }

  lemma SizePassesIff(i: Inputs, b: Base, size: Option<real>)
    ensures SizeReasons(i, b, size) == [] <==>
      EdgeOk(i, 1.0 - (b.yesAsk + b.noAsk)) && DepthOk(i.policy, b, size)
      && SweepOk(i.yes.asks, b.yesAsk, size, Tolerance(i.policy))
      && SweepOk(i.no.asks, b.noAsk, size, Tolerance(i.policy))
  {
    hide MaxSize, SweepOf, Slippage, ExceedsDepth, BufferMissing, TooFewTicks, EdgeInTicks, TickSizeOf, Tolerance;
  }

  // ------------------------------------------------------------------ monotone in the size

  lemma DivideMonotone2(a: real, b: real, d: real)
    requires a <= b && d > 0.0
    ensures (a - d) / d <= (b - d) / d
  {
    DivideMonotone(a - d, b - d, d);
  }

  lemma SlippageMonotone(a: real, b: real, ask: real)
    requires a <= b
    ensures Slippage(a, ask) <= Slippage(b, ask)
  {
    if ask > 0.0 {
      DivideMonotone2(a, b, ask);
    }
  }

  lemma SmallerSweepOk(asks: seq<Level>, ask: real, size: real, smaller: real, tolerance: real)
    requires ValidSide(asks, Ask) && SweepOk(asks, ask, Some(size), tolerance) && 0.0 < smaller <= size
    ensures SweepOk(asks, ask, Some(smaller), tolerance)
  {
    ValidSideIsAscending(asks);
    FilledIsMin(asks, size);
    FilledIsMin(asks, smaller);
    if asks != [] {
      AverageNeverFalls(asks, smaller, size);
      SlippageMonotone(SweepOf(asks, smaller).averagePrice, SweepOf(asks, size).averagePrice, ask);
    }
    hide Cost, Filled, Average, Slippage;
  }

  lemma SmallerDepthOk(p: Policy, b: Base, size: real, smaller: real)
    requires DepthOk(p, b, Some(size)) && 0.0 < smaller <= size
    ensures DepthOk(p, b, Some(smaller))
  {
    if p.depthBufferMultiplier > 0.0 {
      Scale(smaller, size, p.depthBufferMultiplier);
      SpendCommutes(smaller, p.depthBufferMultiplier);
      SpendCommutes(size, p.depthBufferMultiplier);
    }
    hide MaxSize, Spend;
  }

  lemma SpendCommutes(a: real, b: real)
    ensures Spend(a, b) == b * a
  {
  }

  /** A pair of books that passes at one size passes at every smaller positive size. */
  lemma PassesAtSmallerSizes(i: Inputs, size: real, smaller: real)
    requires Valid(i.yes) && Valid(i.no) && Gates(i, Some(size)).passed && 0.0 < smaller <= size
    ensures Gates(i, Some(smaller)).passed
  {
    hide Gates, BaseOf, BaseOk, EdgeOk, DepthOk, SweepOk;
    PassIff(i, Some(size));
    PassIff(i, Some(smaller));
    var b := BaseOf(i);
    SmallerDepthOk(i.policy, b, size, smaller);
    SmallerSweepOk(i.yes.asks, b.yesAsk, size, smaller, Tolerance(i.policy));
    SmallerSweepOk(i.no.asks, b.noAsk, size, smaller, Tolerance(i.policy));
  }

  // ------------------------------------------------------------------ inside the top levels

  lemma HeadroomAtMostDepth(depth: real, headroom: real)
    requires depth >= 0.0 && headroom <= 1.0
    ensures Spend(depth, headroom) <= depth
  {
    Scale(headroom, 1.0, depth);
  }

  lemma TopDepthIsNonNegative(asks: seq<Level>, count: nat)
    requires PositiveSizes(asks)
    ensures DepthAtTopLevels(asks, count) >= 0.0
  {
    DepthIsNonNegative(TopLevels(asks, count));
  }

  /** With headroom between 0 and 1, a size that passes is swept from the top depth levels of both books. */
  lemma PassingSizeStaysInTop(i: Inputs, size: real)
    requires Valid(i.yes) && Valid(i.no) && Gates(i, Some(size)).passed && size >= 0.0
    requires 0.0 <= i.policy.depthHeadroomFraction <= 1.0
    ensures var n := DepthLevels(i.policy);
      SweepOf(i.yes.asks, size) == SweepOf(TopLevels(i.yes.asks, n), size)
      && SweepOf(i.yes.asks, size).filledSize == size
      && SweepOf(i.no.asks, size) == SweepOf(TopLevels(i.no.asks, n), size)
      && SweepOf(i.no.asks, size).filledSize == size
  {
    hide Gates, BaseOk, EdgeOk, SweepOk, SweepOf;
    PassIff(i, Some(size));
    var n := DepthLevels(i.policy);
    ValidSideIsAscending(i.yes.asks);
    ValidSideIsAscending(i.no.asks);
    SizeWithinDepth(i, size);
    SweepStaysInTop(i.yes.asks, n, size);
    SweepStaysInTop(i.no.asks, n, size);
  }

  lemma SizeWithinDepth(i: Inputs, size: real)
    requires PositiveSizes(i.yes.asks) && PositiveSizes(i.no.asks) && 0.0 <= i.policy.depthHeadroomFraction <= 1.0
    requires BaseOk(i) && DepthOk(i.policy, BaseOf(i), Some(size))
    ensures size <= DepthAtTopLevels(i.yes.asks, DepthLevels(i.policy))
    ensures size <= DepthAtTopLevels(i.no.asks, DepthLevels(i.policy))
  {
    hide Spend, DepthAtTopLevels, AlignedToTick, Stale, Skewed, Unstable;
    BasePassesIff(i);
    var b := BaseOf(i);
    TopDepthIsNonNegative(i.yes.asks, DepthLevels(i.policy));
    TopDepthIsNonNegative(i.no.asks, DepthLevels(i.policy));
    HeadroomAtMostDepth(Min(b.yesDepth, b.noDepth), i.policy.depthHeadroomFraction);
  }

  // ------------------------------------------------------------------ profit after fees

  lemma SlippageBound(average: real, ask: real, tolerance: real)
    requires ask > 0.0 && Slippage(average, ask) <= tolerance
    ensures average <= ask + tolerance * ask
  {
    var q := (average - ask) / ask;
    assert q * ask == average - ask;
    Scale(q, tolerance, ask);
  }

  lemma CostBound(cost: real, size: real, average: real, limit: real)
    requires size > 0.0 && average == cost / size && average <= limit
    ensures cost <= size * limit
  {
    assert average * size == cost;
    Scale(average, limit, size);
  }

  /** One book's sweep costs at most the ask plus the tolerance for each unit. */
  lemma SweepCostBound(asks: seq<Level>, ask: real, size: real, tolerance: real)
    requires SweepOk(asks, ask, Some(size), tolerance) && size > 0.0 && ask > 0.0
    requires SweepOf(asks, size).filledSize == size
    ensures SweepOf(asks, size).totalCost <= size * (ask + tolerance * ask)
  {
    SlippageBound(SweepOf(asks, size).averagePrice, ask, tolerance);
    CostBound(SweepOf(asks, size).totalCost, size, SweepOf(asks, size).averagePrice, ask + tolerance * ask);
    hide Cost, Slippage;
  }

  lemma ProfitArithmetic(s: real, yesCost: real, noCost: real, yesAsk: real, noAsk: real, tol: real, fee: real,
        required: real)
    requires s > 0.0
    requires yesCost <= s * (yesAsk + tol * yesAsk) && noCost <= s * (noAsk + tol * noAsk)
    requires 1.0 - (yesAsk + noAsk) - fee * 2.0 >= required
    ensures s - yesCost - noCost - s * (fee * 2.0) >= s * (required - tol * (yesAsk + noAsk))
  {
    var net := 1.0 - (yesAsk + noAsk) - fee * 2.0;
    Scale(required, net, s);
    assert s * net == s - s * yesAsk - s * noAsk - s * (fee * 2.0);
    assert s * (yesAsk + tol * yesAsk) == s * yesAsk + s * (tol * yesAsk);
    assert s * (noAsk + tol * noAsk) == s * noAsk + s * (tol * noAsk);
    assert s * (required - tol * (yesAsk + noAsk)) == s * required - s * (tol * yesAsk) - s * (tol * noAsk);
  }

  /**
   * Passing with fees leaves a swept profit, after the fee the model charges, of at least
   * size * (edgeRequired - tolerance * costPerSet).
   */
  lemma PassingWithFeesIsProfitable(i: Inputs, size: real, fees: FeeModel, venue: Venue)
    requires Valid(i.yes) && Valid(i.no) && size > 0.0 && 0.0 <= i.policy.depthHeadroomFraction <= 1.0
    requires GatesWithFees(i, Some(size), fees, venue).passed
    ensures var d := GatesWithFees(i, Some(size), fees, venue);
      size - SweepOf(i.yes.asks, size).totalCost - SweepOf(i.no.asks, size).totalCost
        - size * (fees.TakerFeeFraction(venue) * 2.0)
      >= size * (i.policy.edgeRequired - Tolerance(i.policy) * d.costPerSet)
  {
    hide Gates, GatesWithFees, BaseOk, EdgeOk, DepthOk, SweepOk, SweepOf, Tolerance, BaseOf;
    var b := BaseOf(i);
    FeesLeaveEdge(i, Some(size), fees, venue);
    PassIff(i, Some(size));
    PassingSizeStaysInTop(i, size);
    AsksArePositive(i);
    SweepCostBound(i.yes.asks, b.yesAsk, size, Tolerance(i.policy));
    SweepCostBound(i.no.asks, b.noAsk, size, Tolerance(i.policy));
    ProfitArithmetic(size, SweepOf(i.yes.asks, size).totalCost, SweepOf(i.no.asks, size).totalCost,
      b.yesAsk, b.noAsk, Tolerance(i.policy), fees.TakerFeeFraction(venue), i.policy.edgeRequired);
  }

  lemma FeesLeaveEdge(i: Inputs, size: Option<real>, fees: FeeModel, venue: Venue)
    requires GatesWithFees(i, size, fees, venue).passed
    ensures Gates(i, size).passed
    ensures GatesWithFees(i, size, fees, venue).costPerSet == BaseOf(i).yesAsk + BaseOf(i).noAsk
    ensures 1.0 - (BaseOf(i).yesAsk + BaseOf(i).noAsk) - fees.TakerFeeFraction(venue) * 2.0 >= i.policy.edgeRequired
  {
    FatalHasReasons(i);
    hide SizeReasons, BaseOf;
  }

  lemma FatalHasReasons(i: Inputs)
    ensures BaseOf(i).fatal ==> BaseOf(i).reasons != []
  {
    hide BookReasons, DepthAtTopLevels;
  }

  lemma AsksArePositive(i: Inputs)
    requires BaseOk(i)
    ensures BaseOf(i).yesAsk > 0.0 && BaseOf(i).noAsk > 0.0 && !BaseOf(i).fatal
  {
    hide AlignedToTick, Stale, Skewed, Unstable;
  }

  // ------------------------------------------------------------------ each reason, in the inputs' own numbers

  ghost predicate Askable(book: Book) {
    book.bestAsk.Some? && book.bestAsk.value.price > 0.0 && !(book.bestAsk.value.price > 1.0)
  }

  ghost predicate SpreadAbove(book: Book, limit: real) {
    && book.bestBid.Some? && book.bestAsk.Some?
    && (book.bestAsk.value.price > book.bestBid.value.price + limit || limit < 0.0)
  }

  /** The book is older than the policy allows; the general freshness limit stands in for a missing one. */
  ghost predicate TooOld(p: Policy, now: int, book: Book) {
    var limit := if p.maxBookStalenessMs.Some? then p.maxBookStalenessMs.value else p.orderbookFreshnessMs;
    p.requireFreshBook && (book.lastUpdateMs < now - limit || limit < 0)
  }

  ghost predicate ChangedSince(book: Book, moment: int) {
    book.stableSinceMs > moment
  }

  /** The price is a multiple of the tick, to the billionth. */
  ghost predicate OnGrid(price: real, tick: real) {
    tick > 0.0 && exists k: int :: NearMultiple(price, tick, k)
  }

  ghost predicate NearMultiple(price: real, tick: real, k: int) {
    Multiple(tick, k) - 0.000000001 < price < Multiple(tick, k) + 0.000000001
  }

  ghost function Multiple(tick: real, k: int): real {
    k as real * tick
  }

  ghost predicate CallsBooks(i: Inputs, r: Reason)
    requires i.yes.bestAsk.Some? && i.no.bestAsk.Some?
  {
    match r
    case YesBookCrossed => i.yes.bestBid.Some? && i.yes.bestBid.value.price > i.yes.bestAsk.value.price
    case NoBookCrossed => i.no.bestBid.Some? && i.no.bestBid.value.price > i.no.bestAsk.value.price
    case MissingSpread => i.yes.bestBid.None? || i.no.bestBid.None?
    case YesSpreadTooWide => i.no.bestBid.Some? && SpreadAbove(i.yes, i.policy.maxSpread)
    case NoSpreadTooWide => i.yes.bestBid.Some? && SpreadAbove(i.no, i.policy.maxSpread)
    case _ => false
  }

  ghost predicate CallsTimes(i: Inputs, r: Reason) {
    var p, yesAt, noAt := i.policy, i.yes.lastUpdateMs, i.no.lastUpdateMs;
    match r
    case YesBookStale => TooOld(p, i.now, i.yes)
    case NoBookStale => TooOld(p, i.now, i.no)
    case LegSyncSkew => p.maxLegSkewMs > 0 && (yesAt > noAt + p.maxLegSkewMs || noAt > yesAt + p.maxLegSkewMs)
    case UnstableTopOfBook =>
      ChangedSince(i.yes, i.now - p.topOfBookStabilityMs) || ChangedSince(i.no, i.now - p.topOfBookStabilityMs)
    case _ => false
  }

  ghost predicate CallsTicks(i: Inputs, r: Reason)
    requires i.yes.bestAsk.Some? && i.no.bestAsk.Some?
  {
    match r
    case YesTickMisaligned => !OnGrid(i.yes.bestAsk.value.price, i.yes.tickSize)
    case NoTickMisaligned => !OnGrid(i.no.bestAsk.value.price, i.no.tickSize)
    case _ => false
  }

  /** The largest positive one of the tick sizes at hand. */
  ghost predicate IsTick(i: Inputs, tick: real) {
    && tick > 0.0 && i.yes.tickSize <= tick && i.no.tickSize <= tick && i.policy.fallbackTickSize <= tick
    && (i.tickSize.Some? ==> i.tickSize.value <= tick)
    && (tick == i.yes.tickSize || tick == i.no.tickSize
        || tick == i.policy.fallbackTickSize || Some(tick) == i.tickSize)
  }

  ghost predicate CallsEdge(i: Inputs, edge: real, r: Reason) {
    match r
    case EdgeBelowThreshold => edge < i.policy.edgeRequired
    case EdgeAboveMax => edge > i.policy.maxEdge
    case EdgeBelowMinTicks =>
      i.policy.minEdgeTicks > 0.0 && exists tick :: IsTick(i, tick) && edge < i.policy.minEdgeTicks * tick
    case _ => false
  }

  /** The sizes of the first `n` levels. */
  ghost function SizeOnTop(levels: seq<Level>, n: nat): real {
    if n == 0 || levels == [] then 0.0 else levels[0].size + SizeOnTop(levels[1..], n - 1)
  }

  /** The whole number of levels the policy names, and one at least. */
  ghost function Levels(p: Policy): nat {
    if p.minDepthLevels < 2.0 then 1 else p.minDepthLevels.Floor
  }

  /** What the thinner book offers on its first levels, less the headroom. */
  ghost function Available(i: Inputs): real {
    var n := Levels(i.policy);
    var yes, no := SizeOnTop(i.yes.asks, n), SizeOnTop(i.no.asks, n);
    (if yes < no then yes else no) * i.policy.depthHeadroomFraction
  }

  ghost predicate CallsDepth(i: Inputs, size: Option<real>, r: Reason) {
    match r
    case InsufficientDepth => Available(i) <= 0.0
    case BelowMinOrderSize => Available(i) < i.yes.minOrderSize || Available(i) < i.no.minOrderSize
    case DesiredSizeExceedsDepth => size.Some? && size.value > Available(i)
    case InsufficientDepthBuffer =>
      && size.Some? && size.value > 0.0 && i.policy.depthBufferMultiplier > 0.0
      && Available(i) < size.value * i.policy.depthBufferMultiplier
    case _ => false
  }

  /** Buying the size costs on average more than the ask by more than the tolerated part of it. */
  ghost predicate Dear(book: Book, size: real, basisPoints: real)
    requires book.bestAsk.Some?
  {
    AverageAbove(book.asks, size, book.bestAsk.value.price, basisPoints / 10000.0)
  }

  ghost predicate AverageAbove(asks: seq<Level>, size: real, ask: real, tolerance: real) {
    SweepOf(asks, size).averagePrice > ask + tolerance * ask
  }

  ghost predicate CallsSweeps(i: Inputs, size: Option<real>, r: Reason)
    requires i.yes.bestAsk.Some? && i.no.bestAsk.Some?
  {
    && size.Some? && size.value > 0.0
    && match r
       case YesDepthExhausted => SweepOf(i.yes.asks, size.value).filledSize < size.value
       case NoDepthExhausted => SweepOf(i.no.asks, size.value).filledSize < size.value
       case YesSlippageExceeded => Dear(i.yes, size.value, i.policy.entrySlippageToleranceBps)
       case NoSlippageExceeded => Dear(i.no, size.value, i.policy.entrySlippageToleranceBps)
       case _ => false
  }

  /** Whether the inputs call for this reason. */
  ghost predicate Calls(i: Inputs, size: Option<real>, r: Reason) {
    if i.yes.bestAsk.None? || i.no.bestAsk.None? then r == MissingBestAsk
    else if !Askable(i.yes) || !Askable(i.no) then
      (r == YesBestAskInvalid && !Askable(i.yes)) || (r == NoBestAskInvalid && !Askable(i.no))
    else
      var edge := 1.0 - i.yes.bestAsk.value.price - i.no.bestAsk.value.price;
      CallsBooks(i, r) || CallsTimes(i, r) || CallsTicks(i, r)
      || CallsEdge(i, edge, r) || CallsDepth(i, size, r) || CallsSweeps(i, size, r)
  }

  /** The place of a reason in the order the checks are made in. */
  ghost function Place(r: Reason): nat {
    match r
    case MissingBestAsk => 0 case YesBestAskInvalid => 1 case NoBestAskInvalid => 2
    case YesBookCrossed => 3 case NoBookCrossed => 4
    case MissingSpread => 5 case YesSpreadTooWide => 6 case NoSpreadTooWide => 7
    case YesBookStale => 8 case NoBookStale => 9 case LegSyncSkew => 10 case UnstableTopOfBook => 11
    case YesTickMisaligned => 12 case NoTickMisaligned => 13
    case EdgeBelowThreshold => 14 case EdgeAboveMax => 15
    case InsufficientDepth => 16 case BelowMinOrderSize => 17
    case DesiredSizeExceedsDepth => 18 case InsufficientDepthBuffer => 19 case EdgeBelowMinTicks => 20
    case YesDepthExhausted => 21 case YesSlippageExceeded => 22
    case NoDepthExhausted => 23 case NoSlippageExceeded => 24
    case EdgeBelowThresholdAfterFees => 25 case EdgeAboveMaxAfterFees => 26
  }

  /** Each reason at most once, in the order of the checks, and with a place in between. */
  ghost predicate Placed(reasons: seq<Reason>, from: nat, to: nat) {
    && (forall a :: 0 <= a < |reasons| ==> from <= Place(reasons[a]) < to)
    && (forall a, b :: 0 <= a < b < |reasons| ==> Place(reasons[a]) < Place(reasons[b]))
  }

  lemma PlacedAppend(a: seq<Reason>, b: seq<Reason>, from: nat, mid: nat, to: nat)
    requires Placed(a, from, mid) && Placed(b, mid, to) && from <= mid <= to
    ensures Placed(a + b, from, to)
  {
  }

  /** Two lists in a row: places follow on, and what is in them is in either. */
  lemma ListsAppend(a: seq<Reason>, b: seq<Reason>, from: nat, mid: nat, to: nat)
    requires Placed(a, from, mid) && Placed(b, mid, to) && from <= mid <= to
    ensures Placed(a + b, from, to)
    ensures forall r :: r in a + b <==> r in a || r in b
  {
    PlacedAppend(a, b, from, mid, to);
  }

  lemma PlacedWider(reasons: seq<Reason>, wider: nat, from: nat, to: nat)
    requires Placed(reasons, from, to) && wider <= from
    ensures Placed(reasons, wider, to)
  {
  }

  lemma WhenPlaced(condition: bool, r: Reason)
    ensures Placed(When(condition, r), Place(r), Place(r) + 1)
    ensures forall x :: x in When(condition, r) <==> condition && x == r
  {
  }

  lemma WhenTwice(a: bool, x: Reason, b: bool, y: Reason)
    requires Place(x) < Place(y)
    ensures Placed(When(a, x) + When(b, y), Place(x), Place(y) + 1)
    ensures forall r :: r in When(a, x) + When(b, y) <==> (a && r == x) || (b && r == y)
  {
    hide When, Place, Placed;
    WhenPlaced(a, x);
    WhenPlaced(b, y);
    PlacedWider(When(b, y), Place(x) + 1, Place(y), Place(y) + 1);
    ListsAppend(When(a, x), When(b, y), Place(x), Place(x) + 1, Place(y) + 1);
  }

  lemma SpreadListed(p: Policy, yes: Book, no: Book)
    ensures Placed(SpreadReasons(p, yes, no), 5, 8)
    ensures var missing := Spread(yes).None? || Spread(no).None?;
      forall r :: r in SpreadReasons(p, yes, no) <==>
        (missing && r == MissingSpread) || (!missing && Wide(p, yes) && r == YesSpreadTooWide)
        || (!missing && Wide(p, no) && r == NoSpreadTooWide)
  {
    WhenTwice(Wide(p, yes), YesSpreadTooWide, Wide(p, no), NoSpreadTooWide);
    hide When, Wide, Spread;
  }

  lemma BookCall(i: Inputs, r: Reason)
    requires Askable(i.yes) && Askable(i.no)
    ensures var missing := Spread(i.yes).None? || Spread(i.no).None?;
      CallsBooks(i, r) <==>
        || (Crossed(i.yes) && r == YesBookCrossed) || (Crossed(i.no) && r == NoBookCrossed)
        || (missing && r == MissingSpread) || (!missing && Wide(i.policy, i.yes) && r == YesSpreadTooWide)
        || (!missing && Wide(i.policy, i.no) && r == NoSpreadTooWide)
  {
  }

  lemma CrossListed(yes: Book, no: Book)
    ensures Placed(CrossReasons(yes, no), 3, 5)
    ensures forall r :: r in CrossReasons(yes, no) <==>
      (Crossed(yes) && r == YesBookCrossed) || (Crossed(no) && r == NoBookCrossed)
  {
    WhenTwice(Crossed(yes), YesBookCrossed, Crossed(no), NoBookCrossed);
    hide When, Crossed;
  }

  lemma BooksCalled(i: Inputs)
    requires Askable(i.yes) && Askable(i.no)
    ensures var reasons := CrossReasons(i.yes, i.no) + SpreadReasons(i.policy, i.yes, i.no);
      Placed(reasons, 3, 8) && forall r :: r in reasons <==> CallsBooks(i, r)
  {
    hide When, CallsBooks, CrossReasons, SpreadReasons, Crossed, Spread, Wide, Placed;
    CrossListed(i.yes, i.no);
    SpreadListed(i.policy, i.yes, i.no);
    var a, b := CrossReasons(i.yes, i.no), SpreadReasons(i.policy, i.yes, i.no);
    ListsAppend(a, b, 3, 5, 8);
    forall r
      ensures r in a + b <==> CallsBooks(i, r)
    {
      BookCall(i, r);
    }
  }

  lemma TimeCall(i: Inputs, r: Reason)
    ensures CallsTimes(i, r) <==>
      || (Stale(i.policy, i.now, i.yes) && r == YesBookStale) || (Stale(i.policy, i.now, i.no) && r == NoBookStale)
      || (Skewed(i.policy, i.yes, i.no) && r == LegSyncSkew)
      || (Unstable(i.policy, i.now, i.yes, i.no) && r == UnstableTopOfBook)
  {
  }

  lemma TimesCalled(i: Inputs)
    ensures var reasons := TimeReasons(i.policy, i.now, i.yes, i.no);
      Placed(reasons, 8, 12) && forall r :: r in reasons <==> CallsTimes(i, r)
  {
    var p := i.policy;
    var a, b := When(Stale(p, i.now, i.yes), YesBookStale), When(Stale(p, i.now, i.no), NoBookStale);
    var c, d := When(Skewed(p, i.yes, i.no), LegSyncSkew), When(Unstable(p, i.now, i.yes, i.no), UnstableTopOfBook);
    WhenPlaced(Stale(p, i.now, i.yes), YesBookStale);
    WhenPlaced(Stale(p, i.now, i.no), NoBookStale);
    WhenPlaced(Skewed(p, i.yes, i.no), LegSyncSkew);
    WhenPlaced(Unstable(p, i.now, i.yes, i.no), UnstableTopOfBook);
    hide When, CallsTimes, Stale, Skewed, Unstable, Placed;
    ListsAppend(a, b, 8, 9, 10);
    ListsAppend(a + b, c, 8, 10, 11);
    ListsAppend(a + b + c, d, 8, 11, 12);
    forall r
      ensures r in a + b + c + d <==> CallsTimes(i, r)
    {
      TimeCall(i, r);
    }
  }

  lemma FloorIsMultiple(price: real, tick: real) returns (k: int)
    requires price >= 0.0 && tick > 0.0
    ensures Remainder(price, tick) == price - Multiple(tick, k) && 0.0 <= Remainder(price, tick) < tick
  {
    var q := price / tick;
    k := q.Floor;
    var kr := k as real;
    assert q * tick == price;
    assert kr <= q < kr + 1.0;
    TimesPositive(kr, q, tick);
    TimesPositive(q, kr + 1.0, tick);
    assert tick * kr == kr * tick;
    assert (kr + 1.0) * tick == kr * tick + tick;
    assert Remainder(price, tick) == price - tick * kr;
    assert Multiple(tick, k) == kr * tick;
  }

  lemma TimesPositive(a: real, b: real, d: real)
    requires d > 0.0
    ensures a <= b ==> a * d <= b * d
    ensures a < b ==> a * d < b * d
  {
  }

  /** Within one step of the grid the price is near one end or the other, and near no other multiple. */
  lemma NearGridIff(price: real, tick: real, k: int, rest: real)
    requires tick > 0.0 && rest == price - Multiple(tick, k) && 0.0 <= rest < tick
    ensures rest < 0.000000001 || tick - rest < 0.000000001 <==> exists j: int :: NearMultiple(price, tick, j)
  {
    hide Multiple;
    MultiplesRise(tick, k, k + 1);
    if rest < 0.000000001 {
      assert NearMultiple(price, tick, k);
    }
    if tick - rest < 0.000000001 {
      assert NearMultiple(price, tick, k + 1);
    }
    if j: int :| NearMultiple(price, tick, j) {
      MultiplesRise(tick, j, k);
      MultiplesRise(tick, k + 1, j);
    }
  }

  lemma MultiplesRise(tick: real, j: int, k: int)
    requires tick > 0.0
    ensures j <= k ==> Multiple(tick, j) <= Multiple(tick, k)
    ensures k == j + 1 ==> Multiple(tick, k) == Multiple(tick, j) + tick
  {
    TimesPositive(j as real, k as real, tick);
    assert (j + 1) as real * tick == j as real * tick + tick;
  }

  lemma AlignedIsOnGrid(price: real, tick: real)
    requires price >= 0.0
    ensures AlignedToTick(price, tick) <==> OnGrid(price, tick)
  {
    hide Remainder, NearMultiple;
    if tick > 0.0 {
      var k := FloorIsMultiple(price, tick);
      NearGridIff(price, tick, k, Remainder(price, tick));
    }
  }

  lemma TicksCalled(i: Inputs)
    requires AskOk(i.yes) && AskOk(i.no)
    ensures var reasons := TickReasons(i.yes, i.no);
      Placed(reasons, 12, 14) && forall r :: r in reasons <==> CallsTicks(i, r)
  {
    AlignedIsOnGrid(i.yes.bestAsk.value.price, i.yes.tickSize);
    AlignedIsOnGrid(i.no.bestAsk.value.price, i.no.tickSize);
    hide AlignedToTick, OnGrid;
    WhenTwice(!AlignedToTick(i.yes.bestAsk.value.price, i.yes.tickSize), YesTickMisaligned,
      !AlignedToTick(i.no.bestAsk.value.price, i.no.tickSize), NoTickMisaligned);
  }

  lemma TickIs(i: Inputs)
    ensures TickSizeOf(i) > 0.0 ==> forall t :: IsTick(i, t) <==> t == TickSizeOf(i)
    ensures TickSizeOf(i) <= 0.0 ==> forall t :: !IsTick(i, t)
  {
  }

  lemma EdgeTicksCalled(i: Inputs, edge: real)
    ensures TooFewTicks(i.policy.minEdgeTicks, EdgeInTicks(edge, TickSizeOf(i)))
      <==> CallsEdge(i, edge, EdgeBelowMinTicks)
  {
    TickIs(i);
    var tick, least := TickSizeOf(i), i.policy.minEdgeTicks;
    hide TickSizeOf, IsTick;
    if tick > 0.0 {
      var q := edge / tick;
      assert q * tick == edge;
      TimesPositive(q, least, tick);
      TimesPositive(least, q, tick);
      assert IsTick(i, tick);
    }
  }

  lemma {:induction false} TopIsSizeOnTop(levels: seq<Level>, n: nat)
    ensures DepthAtTopLevels(levels, n) == SizeOnTop(levels, n)
  {
    if n > 0 && levels != [] {
      TopIsSizeOnTop(levels[1..], n - 1);
      assert TopLevels(levels, n)[1..] == TopLevels(levels[1..], n - 1);
    }
  }

  lemma AvailableIsMaxSize(i: Inputs)
    requires AskOk(i.yes) && AskOk(i.no)
    ensures MaxSize(i.policy, BaseOf(i)) == Available(i)
  {
    TopIsSizeOnTop(i.yes.asks, DepthLevels(i.policy));
    TopIsSizeOnTop(i.no.asks, DepthLevels(i.policy));
    hide BookReasons, DepthAtTopLevels, SizeOnTop;
  }

  lemma DepthCalled(i: Inputs, size: Option<real>)
    requires AskOk(i.yes) && AskOk(i.no)
    ensures var b := BaseOf(i);
      var reasons := DepthReasons(MaxSize(i.policy, b), b.minOrderSize, size, i.policy.depthBufferMultiplier);
      Placed(reasons, 16, 20) && forall r :: r in reasons <==> CallsDepth(i, size, r)
  {
    var b, m := BaseOf(i), i.policy.depthBufferMultiplier;
    var most, least := MaxSize(i.policy, b), b.minOrderSize;
    AvailableIsMaxSize(i);
    assert least == Max(i.yes.minOrderSize, i.no.minOrderSize);
    hide BaseOf, MaxSize, Available, Placed, CallsDepth, DepthReasons, ExceedsDepth, BufferMissing;
    DepthListed(most, least, size, m);
    forall r
      ensures r in DepthReasons(most, least, size, m) <==> CallsDepth(i, size, r)
    {
      DepthCall(i, size, least, r);
    }
  }

  lemma DepthListed(most: real, least: real, size: Option<real>, m: real)
    ensures Placed(DepthReasons(most, least, size, m), 16, 20)
    ensures forall r :: r in DepthReasons(most, least, size, m) <==>
      || (most <= 0.0 && r == InsufficientDepth) || (most < least && r == BelowMinOrderSize)
      || (ExceedsDepth(size, most) && r == DesiredSizeExceedsDepth)
      || (BufferMissing(size, most, m) && r == InsufficientDepthBuffer)
  {
    var a, b := When(most <= 0.0, InsufficientDepth), When(most < least, BelowMinOrderSize);
    var c := When(ExceedsDepth(size, most), DesiredSizeExceedsDepth);
    var d := When(BufferMissing(size, most, m), InsufficientDepthBuffer);
    WhenPlaced(most <= 0.0, InsufficientDepth);
    WhenPlaced(most < least, BelowMinOrderSize);
    WhenPlaced(ExceedsDepth(size, most), DesiredSizeExceedsDepth);
    WhenPlaced(BufferMissing(size, most, m), InsufficientDepthBuffer);
    hide When, ExceedsDepth, BufferMissing, Placed;
    ListsAppend(a, b, 16, 17, 18);
    ListsAppend(a + b, c, 16, 18, 19);
    ListsAppend(a + b + c, d, 16, 19, 20);
    assert DepthReasons(most, least, size, m) == a + b + c + d;
  }

  lemma DepthCall(i: Inputs, size: Option<real>, least: real, r: Reason)
    requires least == Max(i.yes.minOrderSize, i.no.minOrderSize)
    ensures var most := Available(i);
      CallsDepth(i, size, r) <==>
        || (most <= 0.0 && r == InsufficientDepth) || (most < least && r == BelowMinOrderSize)
        || (ExceedsDepth(size, most) && r == DesiredSizeExceedsDepth)
        || (BufferMissing(size, most, i.policy.depthBufferMultiplier) && r == InsufficientDepthBuffer)
  {
    hide Available;
  }

  lemma BaseAsks(i: Inputs)
    requires AskOk(i.yes) && AskOk(i.no)
    ensures BaseOf(i).yesAsk == i.yes.bestAsk.value.price && BaseOf(i).noAsk == i.no.bestAsk.value.price
  {
    hide BookReasons, DepthAtTopLevels;
  }

  lemma EdgeCall(i: Inputs, edge: real, r: Reason)
    ensures CallsEdge(i, edge, r) <==>
      || (edge < i.policy.edgeRequired && r == EdgeBelowThreshold) || (edge > i.policy.maxEdge && r == EdgeAboveMax)
      || (TooFewTicks(i.policy.minEdgeTicks, EdgeInTicks(edge, TickSizeOf(i))) && r == EdgeBelowMinTicks)
  {
    EdgeTicksCalled(i, edge);
    hide TooFewTicks, EdgeInTicks, TickSizeOf, IsTick;
  }

  lemma EdgeListed(p: Policy, edge: real)
    ensures Placed(EdgeReasons(p, edge), 14, 16)
    ensures forall r :: r in EdgeReasons(p, edge) <==>
      (edge < p.edgeRequired && r == EdgeBelowThreshold) || (edge > p.maxEdge && r == EdgeAboveMax)
  {
    WhenTwice(edge < p.edgeRequired, EdgeBelowThreshold, edge > p.maxEdge, EdgeAboveMax);
    hide When;
  }

  lemma EdgesListed(p: Policy, edge: real, depth: seq<Reason>, few: bool)
    requires Placed(depth, 16, 20)
    ensures var all := EdgeReasons(p, edge) + depth + When(few, EdgeBelowMinTicks);
      Placed(all, 14, 21)
      && forall r :: r in all <==>
        || (edge < p.edgeRequired && r == EdgeBelowThreshold) || (edge > p.maxEdge && r == EdgeAboveMax)
        || r in depth || (few && r == EdgeBelowMinTicks)
  {
    EdgeListed(p, edge);
    WhenPlaced(few, EdgeBelowMinTicks);
    hide When, Placed, EdgeReasons;
    var x, z := EdgeReasons(p, edge), When(few, EdgeBelowMinTicks);
    ListsAppend(x, depth, 14, 16, 20);
    ListsAppend(x + depth, z, 14, 20, 21);
  }

  lemma ThresholdsCalled(i: Inputs, size: Option<real>)
    requires AskOk(i.yes) && AskOk(i.no)
    ensures var reasons := ThresholdReasons(i, BaseOf(i), size);
      var edge := 1.0 - i.yes.bestAsk.value.price - i.no.bestAsk.value.price;
      Placed(reasons, 14, 21) && forall r :: r in reasons <==> CallsEdge(i, edge, r) || CallsDepth(i, size, r)
  {
    hide BaseOf, CallsEdge, CallsDepth, DepthReasons, EdgeReasons, TooFewTicks, MaxSize, EdgeInTicks, TickSizeOf;
    hide Placed, When;
    var b := BaseOf(i);
    var edge := 1.0 - (b.yesAsk + b.noAsk);
    BaseAsks(i);
    DepthCalled(i, size);
    var depth := DepthReasons(MaxSize(i.policy, b), b.minOrderSize, size, i.policy.depthBufferMultiplier);
    EdgesListed(i.policy, edge, depth, TooFewTicks(i.policy.minEdgeTicks, EdgeInTicks(edge, TickSizeOf(i))));
    forall r
      ensures r in ThresholdReasons(i, b, size) <==> CallsEdge(i, edge, r) || CallsDepth(i, size, r)
    {
      EdgeCall(i, edge, r);
    }
  }

  lemma SlippageIsDear(average: real, ask: real, tolerance: real)
    requires ask > 0.0
    ensures Slippage(average, ask) > tolerance <==> average > ask + tolerance * ask
  {
    var q := (average - ask) / ask;
    assert q * ask == average - ask;
    TimesPositive(q, tolerance, ask);
    TimesPositive(tolerance, q, ask);
  }

  lemma SlippageListed(asks: seq<Level>, ask: real, size: Option<real>, t: real, exhausted: Reason, exceeded: Reason)
    requires Place(exhausted) < Place(exceeded) && ask > 0.0
    ensures Placed(SlippageReasons(asks, ask, size, t, exhausted, exceeded), Place(exhausted), Place(exceeded) + 1)
    ensures forall r :: r in SlippageReasons(asks, ask, size, t, exhausted, exceeded) <==>
      size.Some? && size.value > 0.0
      && ((SweepOf(asks, size.value).filledSize < size.value && r == exhausted)
          || (AverageAbove(asks, size.value, ask, t) && r == exceeded))
  {
    if size.Some? && size.value > 0.0 {
      var y := SweepOf(asks, size.value);
      SlippageIsDear(y.averagePrice, ask, t);
      assert y.exhausted <==> y.filledSize < size.value;
      WhenTwice(y.exhausted, exhausted, Slippage(y.averagePrice, ask) > t, exceeded);
      hide SweepOf, Slippage, When, Placed;
    }
  }

  lemma SweepCall(i: Inputs, size: Option<real>, r: Reason)
    requires Askable(i.yes) && Askable(i.no)
    ensures var yes, no, t := i.yes.bestAsk.value.price, i.no.bestAsk.value.price, Tolerance(i.policy);
      CallsSweeps(i, size, r) <==>
        size.Some? && size.value > 0.0
        && (|| (SweepOf(i.yes.asks, size.value).filledSize < size.value && r == YesDepthExhausted)
            || (AverageAbove(i.yes.asks, size.value, yes, t) && r == YesSlippageExceeded)
            || (SweepOf(i.no.asks, size.value).filledSize < size.value && r == NoDepthExhausted)
            || (AverageAbove(i.no.asks, size.value, no, t) && r == NoSlippageExceeded))
  {
    hide SweepOf, AverageAbove;
  }

  lemma SweepsCalled(i: Inputs, size: Option<real>)
    requires AskOk(i.yes) && AskOk(i.no)
    ensures var reasons := SweepReasons(i, BaseOf(i), size);
      Placed(reasons, 21, 25) && forall r :: r in reasons <==> CallsSweeps(i, size, r)
  {
    hide BaseOf, Tolerance, SweepOf, SlippageReasons, CallsSweeps, Placed, AverageAbove, When;
    var b, t := BaseOf(i), Tolerance(i.policy);
    BaseAsks(i);
    SlippageListed(i.yes.asks, b.yesAsk, size, t, YesDepthExhausted, YesSlippageExceeded);
    SlippageListed(i.no.asks, b.noAsk, size, t, NoDepthExhausted, NoSlippageExceeded);
    var front := SlippageReasons(i.yes.asks, b.yesAsk, size, t, YesDepthExhausted, YesSlippageExceeded);
    var back := SlippageReasons(i.no.asks, b.noAsk, size, t, NoDepthExhausted, NoSlippageExceeded);
    ListsAppend(front, back, 21, 23, 25);
    assert SweepReasons(i, b, size) == front + back;
    forall r
      ensures r in front + back <==> CallsSweeps(i, size, r)
    {
      SweepCall(i, size, r);
    }
  }

  /** The reasons given are exactly those the inputs call for, each once, in the order of the checks. */
  lemma ReasonsAreCalled(i: Inputs, size: Option<real>)
    ensures Placed(Gates(i, size).reasons, 0, 25)
    ensures forall r :: r in Gates(i, size).reasons <==> Calls(i, size, r)
    ensures Gates(i, size).passed <==> forall r :: !Calls(i, size, r)
  {
    if i.yes.bestAsk.Some? && i.no.bestAsk.Some? && AskOk(i.yes) && AskOk(i.no) {
      GoodAsksReasons(i, size);
    } else {
      BadAsksReasons(i, size);
    }
    PassedIsNone(i, size);
    hide Calls, Gates, Placed;
    SomeOrNone(Gates(i, size).reasons);
  }

  lemma PassedIsNone(i: Inputs, size: Option<real>)
    ensures Gates(i, size).passed <==> Gates(i, size).reasons == []
  {
    FatalHasReasons(i);
    hide BaseOf, SizeReasons;
  }

  lemma BadAsksReasons(i: Inputs, size: Option<real>)
    requires i.yes.bestAsk.None? || i.no.bestAsk.None? || !AskOk(i.yes) || !AskOk(i.no)
    ensures Placed(Gates(i, size).reasons, 0, 25)
    ensures forall r :: r in Gates(i, size).reasons <==> Calls(i, size, r)
  {
    WhenTwice(!AskOk(i.yes), YesBestAskInvalid, !AskOk(i.no), NoBestAskInvalid);
    hide When, SizeReasons, BookReasons;
  }

  lemma SomeOrNone(reasons: seq<Reason>)
    ensures reasons == [] <==> forall r :: r !in reasons
  {
    if reasons != [] {
      assert reasons[0] in reasons;
    }
  }

  lemma GoodAsksReasons(i: Inputs, size: Option<real>)
    requires AskOk(i.yes) && AskOk(i.no)
    ensures Placed(Gates(i, size).reasons, 0, 25)
    ensures forall r :: r in Gates(i, size).reasons <==> Calls(i, size, r)
  {
    hide CrossReasons, SpreadReasons, TimeReasons, TickReasons, ThresholdReasons, SweepReasons, Placed, Place;
    hide CallsBooks, CallsTimes, CallsTicks, CallsEdge, CallsDepth, CallsSweeps, DepthAtTopLevels;
    BooksCalled(i);
    TimesCalled(i);
    TicksCalled(i);
    ThresholdsCalled(i, size);
    SweepsCalled(i, size);
    var a := CrossReasons(i.yes, i.no) + SpreadReasons(i.policy, i.yes, i.no);
    var b, c := TimeReasons(i.policy, i.now, i.yes, i.no), TickReasons(i.yes, i.no);
    var d, e := ThresholdReasons(i, BaseOf(i), size), SweepReasons(i, BaseOf(i), size);
    PlacedAppend(a, b, 3, 8, 12);
    PlacedAppend(a + b, c, 3, 12, 14);
    PlacedAppend(a + b + c, d, 3, 14, 21);
    PlacedAppend(a + b + c + d, e, 3, 21, 25);
    assert Gates(i, size).reasons == a + b + c + d + e;
    PlacedWider(a + b + c + d + e, 0, 3, 25);
  }

  lemma BaseIs(i: Inputs)
    ensures var base := BaseOf(i);
      && (base.fatal <==> !Askable(i.yes) || !Askable(i.no))
      && (base.reasons == [] <==>
            && Askable(i.yes) && Askable(i.no)
            && forall r :: !CallsBooks(i, r) && !CallsTimes(i, r) && !CallsTicks(i, r))
      && (!base.fatal ==>
            && base.yesDepth == SizeOnTop(i.yes.asks, Levels(i.policy))
            && base.noDepth == SizeOnTop(i.no.asks, Levels(i.policy)))
  {
    TopIsSizeOnTop(i.yes.asks, DepthLevels(i.policy));
    TopIsSizeOnTop(i.no.asks, DepthLevels(i.policy));
    if AskOk(i.yes) && AskOk(i.no) {
      hide CallsBooks, CallsTimes, CallsTicks, CrossReasons, SpreadReasons, TimeReasons, TickReasons, Placed;
      hide DepthAtTopLevels, SizeOnTop;
      BooksCalled(i);
      TimesCalled(i);
      TicksCalled(i);
      var a := CrossReasons(i.yes, i.no) + SpreadReasons(i.policy, i.yes, i.no);
      var b, c := TimeReasons(i.policy, i.now, i.yes, i.no), TickReasons(i.yes, i.no);
      ListsAppend(a, b, 3, 8, 12);
      ListsAppend(a + b, c, 3, 12, 14);
      assert BookReasons(i) == a + b + c;
      SomeOrNone(BookReasons(i));
    } else {
      hide BookReasons, DepthAtTopLevels, SizeOnTop, CallsBooks, CallsTimes, CallsTicks;
      FatalHasReasons(i);
    }
  }

  /** The numbers a decision carries, for books with good asks. */
  ghost predicate Reports(i: Inputs, d: Decision)
    requires i.yes.bestAsk.Some? && i.no.bestAsk.Some?
  {
    var cost := i.yes.bestAsk.value.price + i.no.bestAsk.value.price;
    && d.costPerSet == cost && d.edge == 1.0 - cost && d.maxSizeByDepth == Available(i)
    && InTicks(i, d.edge, d.edgeInTicks)
  }

  /** The edge as a number of ticks, where there is a tick. */
  ghost predicate InTicks(i: Inputs, edge: real, ticks: Option<real>) {
    && (ticks.None? <==> forall t :: !IsTick(i, t))
    && (ticks.Some? ==> forall t :: IsTick(i, t) ==> ticks.value * t == edge)
  }

  lemma EdgeIsInTicks(i: Inputs, edge: real)
    ensures InTicks(i, edge, EdgeInTicks(edge, TickSizeOf(i)))
  {
    TickIs(i);
    var tick := TickSizeOf(i);
    hide TickSizeOf, IsTick;
    if tick > 0.0 {
      assert IsTick(i, tick);
      assert edge / tick * tick == edge;
    }
  }

  lemma DecisionReports(i: Inputs, size: Option<real>)
    requires Askable(i.yes) && Askable(i.no)
    ensures Reports(i, Gates(i, size))
  {
    AvailableIsMaxSize(i);
    EdgeIsInTicks(i, 1.0 - (i.yes.bestAsk.value.price + i.no.bestAsk.value.price));
    hide Available, InTicks, SizeReasons, BookReasons, DepthAtTopLevels, MaxSize, EdgeInTicks;
  }

  /** The edge left when the taker's fee, in basis points, is paid on both legs. */
  ghost function EdgeAfterFees(i: Inputs, fees: FeeModel, venue: Venue): real
    requires i.yes.bestAsk.Some? && i.no.bestAsk.Some?
  {
    var bps := if venue in fees.takerFeeBps then fees.takerFeeBps[venue] else 0.0;
    1.0 - i.yes.bestAsk.value.price - i.no.bestAsk.value.price - 2.0 * bps / 10000.0
  }

  /** The decision is about the edge after fees, and passes exactly when that is within the policy's bounds. */
  ghost predicate ChecksAfterFees(i: Inputs, fees: FeeModel, venue: Venue, d: Decision)
    requires i.yes.bestAsk.Some? && i.no.bestAsk.Some?
  {
    var net := EdgeAfterFees(i, fees, venue);
    && d.edge == net && (d.passed <==> i.policy.edgeRequired <= net <= i.policy.maxEdge)
    && d.reasons == (if net < i.policy.edgeRequired then [EdgeBelowThresholdAfterFees] else [])
      + (if net > i.policy.maxEdge then [EdgeAboveMaxAfterFees] else [])
    && InTicks(i, net, d.edgeInTicks) && d.maxSizeByDepth == Available(i)
    && d.costPerSet == i.yes.bestAsk.value.price + i.no.bestAsk.value.price
  }

  lemma NoReasonMeansAsks(i: Inputs, size: Option<real>)
    requires forall r :: !Calls(i, size, r)
    ensures Askable(i.yes) && Askable(i.no) && Gates(i, size).reasons == []
  {
    ReasonsAreCalled(i, size);
    SomeOrNone(Gates(i, size).reasons);
    hide Gates, CallsBooks, CallsTimes, CallsTicks, CallsEdge, CallsDepth, CallsSweeps;
    assert !Calls(i, size, MissingBestAsk) && !Calls(i, size, YesBestAskInvalid) && !Calls(i, size, NoBestAskInvalid);
  }

  /** With fees the earlier reasons stand alone; where there are none, the edge after fees is checked in their place. */
  lemma ReasonsWithFees(i: Inputs, size: Option<real>, fees: FeeModel, venue: Venue)
    ensures var d := GatesWithFees(i, size, fees, venue);
      && ((exists r :: Calls(i, size, r)) ==>
            d == Gates(i, size) && (forall r :: r in d.reasons <==> Calls(i, size, r)) && !d.passed)
      && (!(exists r :: Calls(i, size, r)) ==>
            i.yes.bestAsk.Some? && i.no.bestAsk.Some? && ChecksAfterFees(i, fees, venue, d))
  {
    hide Gates, Calls, Available, TickSizeOf, IsTick;
    ReasonsAreCalled(i, size);
    if r :| Calls(i, size, r) {
      assert r in Gates(i, size).reasons;
    } else {
      NoReasonMeansAsks(i, size);
      DecisionReports(i, size);
      var net := EdgeAfterFees(i, fees, venue);
      assert fees.NetEdge(venue, Gates(i, size).edge) == net;
      EdgeIsInTicks(i, net);
      SameTicks(i, net, Gates(i, size).edgeInTicks, Gates(i, size).edge);
      hide InTicks;
    }
  }

  lemma SameTicks(i: Inputs, edge: real, ticks: Option<real>, other: real)
    requires InTicks(i, other, ticks)
    ensures EdgeInTicks(edge, TickSizeOf(i)).None? ==> ticks.None?
  {
    EdgeIsInTicks(i, edge);
    hide IsTick, TickSizeOf;
  }

  // ------------------------------------------------------------------ the code

  method Push(reasons: seq<Reason>, condition: bool, reason: Reason) returns (r: seq<Reason>)
    ensures r == reasons + When(condition, reason)
  {
    r := reasons;
    if condition {
      r := r + [reason];
    }
  }

  method ApplyDepthGateChecks(reasons: seq<Reason>, maxSize: real, minOrderSize: real, size: Option<real>,
        multiplier: real)
    returns (r: seq<Reason>)
    ensures r == reasons + DepthReasons(maxSize, minOrderSize, size, multiplier)
  {
    hide Spend, ExceedsDepth;
    r := Push(reasons, maxSize <= 0.0, InsufficientDepth);
    r := Push(r, maxSize < minOrderSize, BelowMinOrderSize);
    r := Push(r, ExceedsDepth(size, maxSize), DesiredSizeExceedsDepth);
    var missing := size.Some? && size.value > 0.0 && multiplier > 0.0 && maxSize < Spend(size.value, multiplier);
    assert missing <==> BufferMissing(size, maxSize, multiplier);
    hide BufferMissing, When;
    r := Push(r, missing, InsufficientDepthBuffer);
  }

  method ApplySlippageChecks(reasons: seq<Reason>, asks: seq<Level>, ask: real, size: Option<real>, tolerance: real,
      exhausted: Reason, exceeded: Reason)
    returns (r: seq<Reason>)
    ensures r == reasons + SlippageReasons(asks, ask, size, tolerance, exhausted, exceeded)
  {
    hide SweepOf, Slippage;
    r := reasons;
    if size.None? || size.value <= 0.0 {
      return;
    }
    var sweep := SweepCost(asks, size.value);
    r := Push(r, sweep.exhausted, exhausted);
    r := Push(r, Slippage(sweep.averagePrice, ask) > tolerance, exceeded);
  }

  method SpreadChecks(reasons: seq<Reason>, p: Policy, yes: Book, no: Book) returns (r: seq<Reason>)
    ensures r == reasons + SpreadReasons(p, yes, no)
  {
    r := reasons;
    var yesSpread, noSpread := Spread(yes), Spread(no);
    if yesSpread.None? || noSpread.None? {
      r := r + [MissingSpread];
    } else {
      r := Push(r, yesSpread.value > p.maxSpread, YesSpreadTooWide);
      r := Push(r, noSpread.value > p.maxSpread, NoSpreadTooWide);
    }
  }

  method FreshnessChecks(reasons: seq<Reason>, p: Policy, now: int, yes: Book, no: Book) returns (r: seq<Reason>)
    ensures r == reasons + When(Stale(p, now, yes), YesBookStale) + When(Stale(p, now, no), NoBookStale)
  {
    r := reasons;
    var yesStaleness, noStaleness := MaxInt(0, now - yes.lastUpdateMs), MaxInt(0, now - no.lastUpdateMs);
    var maxStaleness := p.maxBookStalenessMs.GetOr(p.orderbookFreshnessMs);
    if p.requireFreshBook {
      r := Push(r, yesStaleness > maxStaleness, YesBookStale);
      r := Push(r, noStaleness > maxStaleness, NoBookStale);
    }
  }

  method TimeChecks(reasons: seq<Reason>, p: Policy, now: int, yes: Book, no: Book) returns (r: seq<Reason>)
    ensures r == reasons + TimeReasons(p, now, yes, no)
  {
    hide Stale, Unstable, AbsInt;
    r := FreshnessChecks(reasons, p, now, yes, no);
    var skew := AbsInt(yes.lastUpdateMs - no.lastUpdateMs);
    r := Push(r, p.maxLegSkewMs > 0 && skew > p.maxLegSkewMs, LegSyncSkew);
    r := Push(r, Unstable(p, now, yes, no), UnstableTopOfBook);
  }

  method EvaluateBaseGates(i: Inputs) returns (base: Base)
    ensures base == BaseOf(i)
    ensures base.fatal <==> !Askable(i.yes) || !Askable(i.no)
    ensures base.reasons == [] <==>
      Askable(i.yes) && Askable(i.no) && forall r :: !CallsBooks(i, r) && !CallsTimes(i, r) && !CallsTicks(i, r)
    ensures i.yes.bestAsk.Some? && i.no.bestAsk.Some? ==>
      base.yesAsk == i.yes.bestAsk.value.price && base.noAsk == i.no.bestAsk.value.price
    ensures !base.fatal ==>
      && base.yesDepth == SizeOnTop(i.yes.asks, Levels(i.policy))
      && base.noDepth == SizeOnTop(i.no.asks, Levels(i.policy))
      && base.minOrderSize == (if i.yes.minOrderSize < i.no.minOrderSize then i.no.minOrderSize else i.yes.minOrderSize)
    ensures base.fatal ==> base.yesDepth == 0.0 == base.noDepth && base.minOrderSize == 0.0
  {
    BaseIs(i);
    hide BookReasons, DepthAtTopLevels;
    if i.yes.bestAsk.None? || i.no.bestAsk.None? {
      return Base(true, [MissingBestAsk], 0.0, 0.0, 0.0, 0.0, 0.0);
    }
    var yesAsk, noAsk := i.yes.bestAsk.value.price, i.no.bestAsk.value.price;
    var reasons := Push([], yesAsk <= 0.0 || yesAsk > 1.0, YesBestAskInvalid);
    reasons := Push(reasons, noAsk <= 0.0 || noAsk > 1.0, NoBestAskInvalid);
    if |reasons| > 0 {
      return Base(true, reasons, yesAsk, noAsk, 0.0, 0.0, 0.0);
    }
    reasons := BookChecks(i);
    var levels := MaxInt(1, i.policy.minDepthLevels.Floor);
    var yesDepth := SumTopLevels(i.yes.asks, levels);
    var noDepth := SumTopLevels(i.no.asks, levels);
    return Base(false, reasons, yesAsk, noAsk, yesDepth, noDepth, Max(i.yes.minOrderSize, i.no.minOrderSize));
  }

  method BookChecks(i: Inputs) returns (reasons: seq<Reason>)
    requires AskOk(i.yes) && AskOk(i.no)
    ensures reasons == BookReasons(i)
  {
    hide AlignedToTick, SpreadReasons, TimeReasons, Crossed;
    reasons := Push([], Crossed(i.yes), YesBookCrossed);
    reasons := Push(reasons, Crossed(i.no), NoBookCrossed);
    reasons := SpreadChecks(reasons, i.policy, i.yes, i.no);
    reasons := TimeChecks(reasons, i.policy, i.now, i.yes, i.no);
    var yesAligned := AlignedToTick(i.yes.bestAsk.value.price, i.yes.tickSize);
    var noAligned := AlignedToTick(i.no.bestAsk.value.price, i.no.tickSize);
    ghost var before := reasons;
    reasons := Push(reasons, !yesAligned, YesTickMisaligned);
    reasons := Push(reasons, !noAligned, NoTickMisaligned);
    assert reasons == before + TickReasons(i.yes, i.no);
  }

  method EvaluateGates(i: Inputs, size: Option<real>) returns (d: Decision)
    ensures d == Gates(i, size)
    ensures d.passed <==> forall r :: !Calls(i, size, r)
    ensures (forall r :: r in d.reasons <==> Calls(i, size, r)) && Placed(d.reasons, 0, 25)
    ensures Askable(i.yes) && Askable(i.no) ==> Reports(i, d)
    ensures !Askable(i.yes) || !Askable(i.no) ==> d == Decision(false, d.reasons, 0.0, 0.0, None, 0.0)
  {
    hide BaseOf, ThresholdReasons, SweepReasons, Spend, Calls, Placed, Reports;
    ReasonsAreCalled(i, size);
    if Askable(i.yes) && Askable(i.no) {
      DecisionReports(i, size);
    }
    var base := EvaluateBaseGates(i);
    if base.fatal {
      return Decision(false, base.reasons, 0.0, 0.0, None, 0.0);
    }
    var edge := 1.0 - (base.yesAsk + base.noAsk);
    var maxSize := Spend(Min(base.yesDepth, base.noDepth), i.policy.depthHeadroomFraction);
    var tick := ResolveTickSize(i.tickSize, Max(i.yes.tickSize, i.no.tickSize), i.policy.fallbackTickSize);
    var edgeInTicks := EdgeInTicks(edge, tick);
    var reasons := ThresholdChecks(base.reasons, i, base, size, edge, maxSize, edgeInTicks);
    reasons := SweepChecks(reasons, i, base, size);
    assert reasons == base.reasons + SizeReasons(i, base, size);
    return Decision(reasons == [], reasons, base.yesAsk + base.noAsk, edge, edgeInTicks, maxSize);
  }

  method ThresholdChecks(reasons: seq<Reason>, i: Inputs, base: Base, size: Option<real>, edge: real, maxSize: real,
      edgeInTicks: Option<real>)
    returns (r: seq<Reason>)
    requires edge == 1.0 - (base.yesAsk + base.noAsk) && maxSize == MaxSize(i.policy, base)
    requires edgeInTicks == EdgeInTicks(edge, TickSizeOf(i))
    ensures r == reasons + ThresholdReasons(i, base, size)
  {
    hide DepthReasons, EdgeInTicks, TickSizeOf, MaxSize, TooFewTicks;
    r := Push(reasons, edge < i.policy.edgeRequired, EdgeBelowThreshold);
    r := Push(r, edge > i.policy.maxEdge, EdgeAboveMax);
    r := ApplyDepthGateChecks(r, maxSize, base.minOrderSize, size, i.policy.depthBufferMultiplier);
    r := Push(r, TooFewTicks(i.policy.minEdgeTicks, edgeInTicks), EdgeBelowMinTicks);
  }

  method SweepChecks(reasons: seq<Reason>, i: Inputs, base: Base, size: Option<real>) returns (r: seq<Reason>)
    ensures r == reasons + SweepReasons(i, base, size)
  {
    hide SlippageReasons;
    var tolerance := i.policy.entrySlippageToleranceBps / 10000.0;
    r := ApplySlippageChecks(reasons, i.yes.asks, base.yesAsk, size, tolerance, YesDepthExhausted, YesSlippageExceeded);
    r := ApplySlippageChecks(r, i.no.asks, base.noAsk, size, tolerance, NoDepthExhausted, NoSlippageExceeded);
  }

  method EvaluateGatesWithFees(i: Inputs, size: Option<real>, fees: FeeModel, venue: Venue) returns (d: Decision)
    ensures d == GatesWithFees(i, size, fees, venue)
    ensures (exists r :: Calls(i, size, r)) ==> (forall r :: r in d.reasons <==> Calls(i, size, r)) && !d.passed
    ensures !(exists r :: Calls(i, size, r)) ==>
      i.yes.bestAsk.Some? && i.no.bestAsk.Some? && ChecksAfterFees(i, fees, venue, d)
  {
    hide Gates, ResolveTickSize, Calls, ChecksAfterFees;
    ReasonsWithFees(i, size, fees, venue);
    var base := EvaluateGates(i, size);
    if |base.reasons| > 0 {
      return base;
    }
    var net := fees.NetEdge(venue, base.edge);
    var tick := ResolveTickSize(i.tickSize, Max(i.yes.tickSize, i.no.tickSize), i.policy.fallbackTickSize);
    var edgeInTicks := Or(EdgeInTicks(net, tick), base.edgeInTicks);
    var reasons := Push([], net < i.policy.edgeRequired, EdgeBelowThresholdAfterFees);
    reasons := Push(reasons, net > i.policy.maxEdge, EdgeAboveMaxAfterFees);
    return base.(edge := net, edgeInTicks := edgeInTicks, reasons := reasons, passed := reasons == []);
  }
}

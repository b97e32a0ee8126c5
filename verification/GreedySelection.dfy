/** The degree-capped greedy edge selection of the dependency resolver. */
module GreedySelection {
  import opened Prelude
  import opened StableSort
  import opened Dependency

  type Counts = map<string, nat>

  function At(counts: Counts, market: string): nat {
    if market in counts then counts[market] else 0
  }

  function Counted(counts: Counts, e: Edge): Counts {
    counts[e.marketA := At(counts, e.marketA) + 1][e.marketB := At(counts, e.marketB) + 1]
  }

  predicate HasRoom(counts: Counts, e: Edge, cap: nat) {
    At(counts, e.marketA) < cap && At(counts, e.marketB) < cap
  }

  /** The edges taken from `es` in turn, when `counts` are already used up. */
  function Greedy(es: seq<Edge>, counts: Counts, cap: nat): seq<Edge> {
    if es == [] then []
    else if HasRoom(counts, es[0], cap) then [es[0]] + Greedy(es[1..], Counted(counts, es[0]), cap)
    else Greedy(es[1..], counts, cap)
  }

  function ByConfidence(): Edge -> real {
    (e: Edge) => 0.0 - e.confidence
  }

  function AtLeast(minConfidence: Confidence): Edge -> bool {
    (e: Edge) => e.confidence >= minConfidence
  }

  function Cap(maxEdgesPerMarket: real): nat {
    MaxInt(1, maxEdgesPerMarket.Floor)
  }

  /** Edges that qualify, strongest first, then taken greedily. */
  function Selected(edges: seq<Edge>, minConfidence: real, maxEdgesPerMarket: real): seq<Edge> {
    Greedy(Sort(ByConfidence(), Qualifying(edges, minConfidence)), map[], Cap(maxEdgesPerMarket))
  }

  function Qualifying(edges: seq<Edge>, minConfidence: real): seq<Edge> {
    Filter(AtLeast(Clamp(minConfidence)), edges)
  }

  function Weight(es: seq<Edge>): (w: real)
    ensures es == [] ==> w == 0.0
  {
    if es == [] then 0.0 else es[0].confidence + Weight(es[1..])
  }

  /** How many of the edges touch the market. */
  function Degree(es: seq<Edge>, market: string): nat {
    if es == [] then 0 else Degree(es[1..], market) + if Touches(es[0], market) then 1 else 0
  }

  /** How many edges of at least this confidence touch the market. */
  function StrongDegree(es: seq<Edge>, market: string, confidence: Confidence): nat {
    if es == [] then 0
    else
      StrongDegree(es[1..], market, confidence)
      + if Touches(es[0], market) && es[0].confidence >= confidence then 1 else 0
  }

  /** One end of `e` holds `cap` places, all beyond `counts` taken by edges of at least its confidence. */
  ghost predicate Blocked(e: Edge, taken: seq<Edge>, counts: Counts, cap: nat) {
    exists v :: Touches(e, v) && At(counts, v) + StrongDegree(taken, v, e.confidence) >= cap
  }

  ghost predicate Fits(es: seq<Edge>, counts: Counts, cap: nat) {
    forall v :: At(counts, v) + Degree(es, v) <= cap
  }

  ghost predicate Descending(es: seq<Edge>) {
    forall i, j :: 0 <= i < j < |es| ==> es[i].confidence >= es[j].confidence
  }

  function RemoveAt(es: seq<Edge>, k: nat): seq<Edge>
    requires k < |es|
  {
    es[..k] + es[k + 1..]
  }

  lemma CountedAt(counts: Counts, e: Edge, v: string)
    ensures At(Counted(counts, e), v) == At(counts, v) + if Touches(e, v) then 1 else 0
  {
  }

  lemma {:induction false} RemoveAtMeasures(es: seq<Edge>, k: nat, v: string)
    requires k < |es|
    ensures Weight(RemoveAt(es, k)) == Weight(es) - es[k].confidence
    ensures Degree(RemoveAt(es, k), v) == Degree(es, v) - if Touches(es[k], v) then 1 else 0
  {
    if k == 0 {
      assert RemoveAt(es, 0) == es[1..];
    } else {
      RemoveAtMeasures(es[1..], k - 1, v);
      assert RemoveAt(es, k)[1..] == RemoveAt(es[1..], k - 1);
    }
  }

  lemma RemoveAtCounts(es: seq<Edge>, k: nat)
    requires k < |es|
    ensures multiset(RemoveAt(es, k)) == multiset(es) - multiset{es[k]}
  {
    assert es == es[..k] + [es[k]] + es[k + 1..];
  }

  lemma {:induction false} TouchingIndex(es: seq<Edge>, v: string) returns (k: nat)
    requires Degree(es, v) > 0
    ensures k < |es| && Touches(es[k], v)
  {
    if Touches(es[0], v) {
      k := 0;
    } else {
      k := TouchingIndex(es[1..], v);
      k := k + 1;
    }
  }

  /** Frees one place at `v` if any edge takes one, losing at most one edge's confidence. */
  lemma FreePlace(es: seq<Edge>, v: string, bound: Confidence) returns (rest: seq<Edge>)
    requires forall i :: 0 <= i < |es| ==> es[i].confidence <= bound
    ensures multiset(rest) <= multiset(es)
    ensures forall i :: 0 <= i < |rest| ==> rest[i].confidence <= bound
    ensures Weight(es) <= Weight(rest) + bound
    ensures forall u :: Degree(rest, u) <= Degree(es, u)
    ensures Degree(rest, v) == 0 || Degree(rest, v) < Degree(es, v)
  {
    rest := es;
    if Degree(es, v) > 0 {
      var k := TouchingIndex(es, v);
      rest := RemoveAt(es, k);
      RemoveAtCounts(es, k);
      forall u
        ensures Degree(rest, u) <= Degree(es, u)
        ensures Touches(es[k], u) ==> Degree(rest, u) < Degree(es, u)
      {
        RemoveAtMeasures(es, k, u);
      }
      RemoveAtMeasures(es, k, v);
    }
  }

  lemma {:induction false} GreedyFits(es: seq<Edge>, counts: Counts, cap: nat, v: string)
    requires At(counts, v) <= cap
    ensures At(counts, v) + Degree(Greedy(es, counts, cap), v) <= cap
  {
    if es != [] {
      if HasRoom(counts, es[0], cap) {
        CountedAt(counts, es[0], v);
        GreedyFits(es[1..], Counted(counts, es[0]), cap, v);
      } else {
        GreedyFits(es[1..], counts, cap, v);
      }
    }
  }

  /** Trading the head of the list for at most two edges of a rival selection keeps the rival feasible. */
  lemma MakeRoom(other: seq<Edge>, head: Edge, counts: Counts, cap: nat) returns (rest: seq<Edge>)
    requires Fits(other, counts, cap) && HasRoom(counts, head, cap)
    requires forall i :: 0 <= i < |other| ==> other[i].confidence <= head.confidence
    ensures multiset(rest) <= multiset(other) && Fits(rest, Counted(counts, head), cap)
    ensures Weight(other) <= Weight(rest) + 2.0 * head.confidence
  {
    var once := FreePlace(other, head.marketA, head.confidence);
    rest := FreePlace(once, head.marketB, head.confidence);
    forall v
      ensures At(Counted(counts, head), v) + Degree(rest, v) <= cap
    {
      CountedAt(counts, head, v);
      assert At(counts, v) + Degree(other, v) <= cap;
      assert Degree(rest, v) <= Degree(once, v) <= Degree(other, v);
    }
  }

  /** If the rival holds the head too, drop it there. */
  lemma DropHead(other: seq<Edge>, head: Edge, counts: Counts, cap: nat) returns (rest: seq<Edge>)
    requires Fits(other, counts, cap) && head in other
    ensures multiset(rest) == multiset(other) - multiset{head} && Fits(rest, Counted(counts, head), cap)
    ensures Weight(other) == Weight(rest) + head.confidence
  {
    var k :| 0 <= k < |other| && other[k] == head;
    rest := RemoveAt(other, k);
    RemoveAtCounts(other, k);
    forall v
      ensures At(Counted(counts, head), v) + Degree(rest, v) <= cap
    {
      CountedAt(counts, head, v);
      RemoveAtMeasures(other, k, v);
      assert At(counts, v) + Degree(other, v) <= cap;
    }
    RemoveAtMeasures(other, k, "");
  }

  lemma {:induction false} MemberTakesPlace(es: seq<Edge>, e: Edge, v: string)
    requires e in es && Touches(e, v)
    ensures Degree(es, v) > 0
  {
    if es[0] != e {
      MemberTakesPlace(es[1..], e, v);
    }
  }

  lemma NoRoomForHead(other: seq<Edge>, head: Edge, counts: Counts, cap: nat)
    requires Fits(other, counts, cap) && !HasRoom(counts, head, cap)
    ensures head !in other
  {
    if head in other {
      MemberTakesPlace(other, head, head.marketA);
      MemberTakesPlace(other, head, head.marketB);
    }
  }

  lemma StrongestHead(es: seq<Edge>, other: seq<Edge>)
    requires es != [] && Descending(es) && multiset(other) <= multiset(es)
    ensures forall i :: 0 <= i < |other| ==> other[i].confidence <= es[0].confidence
  {
    forall i | 0 <= i < |other|
      ensures other[i].confidence <= es[0].confidence
    {
      assert other[i] in multiset(other);
      assert other[i] in es;
    }
  }

  /** A rival for the tail, after a head that was taken, and what it lost. */
  lemma RivalAfterHead(es: seq<Edge>, counts: Counts, cap: nat, other: seq<Edge>) returns (rest: seq<Edge>)
    requires es != [] && Descending(es) && Fits(other, counts, cap) && multiset(other) <= multiset(es)
    requires HasRoom(counts, es[0], cap)
    ensures multiset(rest) <= multiset(es[1..]) && Fits(rest, Counted(counts, es[0]), cap)
    ensures Weight(other) <= Weight(rest) + 2.0 * es[0].confidence
  {
    TailCounts(es);
    var head := es[0];
    if head in other {
      rest := DropHead(other, head, counts, cap);
    } else {
      StrongestHead(es, other);
      rest := MakeRoom(other, head, counts, cap);
    }
  }

  lemma TailCounts(es: seq<Edge>)
    requires es != []
    ensures multiset(es) == multiset{es[0]} + multiset(es[1..])
  {
    assert es == [es[0]] + es[1..];
  }

  /** Whatever else fits the same room weighs at most twice the greedy selection. */
  lemma {:induction false} GreedyIsHalfOptimal(es: seq<Edge>, counts: Counts, cap: nat, other: seq<Edge>)
    requires Descending(es) && Fits(other, counts, cap) && multiset(other) <= multiset(es)
    ensures Weight(other) <= 2.0 * Weight(Greedy(es, counts, cap))
    decreases |es|
  {
    if es == [] {
      assert |multiset(other)| == 0;
    } else {
      var head := es[0];
      if !HasRoom(counts, head, cap) {
        TailCounts(es);
        NoRoomForHead(other, head, counts, cap);
        GreedyIsHalfOptimal(es[1..], counts, cap, other);
      } else {
        var rest := RivalAfterHead(es, counts, cap, other);
        GreedyIsHalfOptimal(es[1..], Counted(counts, head), cap, rest);
      }
    }
  }

  /** An edge that was not taken as often as it was offered has an endpoint full of edges no weaker. */
  lemma {:induction false} DroppedHasFullEndpoint(es: seq<Edge>, counts: Counts, cap: nat, e: Edge)
    requires Descending(es) && multiset(Greedy(es, counts, cap))[e] < multiset(es)[e]
    ensures Blocked(e, Greedy(es, counts, cap), counts, cap)
    decreases |es|
  {
    var head, kept := es[0], Greedy(es, counts, cap);
    TailCounts(es);
    if !HasRoom(counts, head, cap) {
      if head == e {
        var v := if At(counts, e.marketA) >= cap then e.marketA else e.marketB;
        assert Touches(e, v);
      } else {
        DroppedHasFullEndpoint(es[1..], counts, cap, e);
      }
    } else {
      TailCounts(kept);
      DroppedHasFullEndpoint(es[1..], Counted(counts, head), cap, e);
      var v :| Touches(e, v)
        && At(Counted(counts, head), v) + StrongDegree(kept[1..], v, e.confidence) >= cap;
      CountedAt(counts, head, v);
      assert e in multiset(es);
      assert e in es && head.confidence >= e.confidence;
    }
  }

  lemma SortedIsDescending(es: seq<Edge>)
    ensures Descending(Sort(ByConfidence(), es)) && multiset(Sort(ByConfidence(), es)) == multiset(es)
  {
    var sorted := Sort(ByConfidence(), es);
    SortIsSorted(ByConfidence(), es);
    SortKeepsCounts(ByConfidence(), es);
    forall i, j | 0 <= i < j < |sorted|
      ensures sorted[i].confidence >= sorted[j].confidence
    {
      assert ByConfidence()(sorted[i]) <= ByConfidence()(sorted[j]);
    }
  }

  /** Every market ends with at most the cap. */
  lemma SelectionRespectsCap(edges: seq<Edge>, minConfidence: real, maxEdgesPerMarket: real, v: string)
    ensures Degree(Selected(edges, minConfidence, maxEdgesPerMarket), v) <= Cap(maxEdgesPerMarket)
  {
    GreedyFits(Sort(ByConfidence(), Qualifying(edges, minConfidence)), map[], Cap(maxEdgesPerMarket), v);
  }

  /** Each qualifying edge dropped has an endpoint already full of edges of at least its confidence. */
  lemma DroppedEdgesWereBlocked(edges: seq<Edge>, minConfidence: real, maxEdgesPerMarket: real, e: Edge)
    requires multiset(Selected(edges, minConfidence, maxEdgesPerMarket))[e]
      < multiset(Qualifying(edges, minConfidence))[e]
    ensures Blocked(e, Selected(edges, minConfidence, maxEdgesPerMarket), map[], Cap(maxEdgesPerMarket))
  {
    var sorted := Sort(ByConfidence(), Qualifying(edges, minConfidence));
    SortedIsDescending(Qualifying(edges, minConfidence));
    DroppedHasFullEndpoint(sorted, map[], Cap(maxEdgesPerMarket), e);
  }

  /**
   * Any other selection of qualifying edges with at most the cap at every market weighs at most twice
   * the one made, self-loops (one place at their market) included.
   */
  lemma SelectionIsHalfOptimal(edges: seq<Edge>, minConfidence: real, maxEdgesPerMarket: real, other: seq<Edge>)
    requires multiset(other) <= multiset(Qualifying(edges, minConfidence))
    requires forall v :: Degree(other, v) <= Cap(maxEdgesPerMarket)
    ensures Weight(other) <= 2.0 * Weight(Selected(edges, minConfidence, maxEdgesPerMarket))
  {
    SortedIsDescending(Qualifying(edges, minConfidence));
    assert Fits(other, map[], Cap(maxEdgesPerMarket));
    GreedyIsHalfOptimal(Sort(ByConfidence(), Qualifying(edges, minConfidence)), map[], Cap(maxEdgesPerMarket), other);
  }

  /** The selection loop, over a sorted list. */
  method TakeCapped(sorted: seq<Edge>, cap: nat) returns (selected: seq<Edge>)
    ensures selected == Greedy(sorted, map[], cap)
  {
    var counts: Counts := map[];
    selected := [];
    var i := 0;
    while i < |sorted|
      invariant 0 <= i <= |sorted|
      invariant selected + Greedy(sorted[i..], counts, cap) == Greedy(sorted, map[], cap)
    {
      var e := sorted[i];
      var left := if e.marketA in counts then counts[e.marketA] else 0;
      var right := if e.marketB in counts then counts[e.marketB] else 0;
      assert sorted[i..][1..] == sorted[i + 1..];
      if left < cap && right < cap {
        assert selected + ([e] + Greedy(sorted[i + 1..], Counted(counts, e), cap))
          == (selected + [e]) + Greedy(sorted[i + 1..], Counted(counts, e), cap);
        selected := selected + [e];
        counts := counts[e.marketA := left + 1];
        counts := counts[e.marketB := right + 1];
      }
      i := i + 1;
    }
  }

  // ------------------------------------------------------------------ what is kept, in the policy's own numbers

  /** The edge is as sure as the policy asks; no more than certainty can be asked. */
  ghost predicate SureEnough(e: Edge, minConfidence: real) {
    e.confidence >= minConfidence || e.confidence == 1.0
  }

  /** The places each market has: the whole part of the policy's number, but at least one. */
  ghost function Places(maxEdgesPerMarket: real): nat {
    if maxEdgesPerMarket < 2.0 then 1 else maxEdgesPerMarket.Floor
  }

  /** The places of the edges that touch the market and are at least this sure. */
  ghost function Taking(es: seq<Edge>, market: string, confidence: real): set<int> {
    set k | 0 <= k < |es| && (es[k].marketA == market || es[k].marketB == market) && es[k].confidence >= confidence
  }

  lemma {:induction false} StrongPush(es: seq<Edge>, e: Edge, market: string, c: Confidence)
    ensures StrongDegree(es + [e], market, c)
      == StrongDegree(es, market, c) + if Touches(e, market) && e.confidence >= c then 1 else 0
  {
    if es == [] {
      assert [] + [e] == [e];
    } else {
      assert (es + [e])[1..] == es[1..] + [e];
      StrongPush(es[1..], e, market, c);
    }
  }

  lemma {:induction false} StrongIsTaking(es: seq<Edge>, market: string, c: Confidence)
    ensures |Taking(es, market, c)| == StrongDegree(es, market, c)
  {
    if es != [] {
      var n := |es| - 1;
      var front, last := es[..n], es[n];
      assert es == front + [last];
      StrongIsTaking(front, market, c);
      StrongPush(front, last, market, c);
      var more := if Touches(last, market) && last.confidence >= c then {n} else {};
      assert Taking(es, market, c) == Taking(front, market, c) + more;
    }
  }

  lemma {:induction false} DegreeIsStrong(es: seq<Edge>, market: string)
    ensures Degree(es, market) == StrongDegree(es, market, 0.0)
  {
    if es != [] {
      DegreeIsStrong(es[1..], market);
    }
  }

  ghost predicate Full(market: string, selected: seq<Edge>, confidence: Confidence, places: nat) {
    |Taking(selected, market, confidence)| >= places
  }

  /**
   * From what is offered, only edges that are sure enough are kept, no oftener than offered, strongest
   * first and no more at any market than it has places; and such an edge is dropped only where an
   * endpoint's places are all taken by edges no weaker.
   */
  ghost predicate KeepsTheStrongest(offered: Edge -> nat, selected: seq<Edge>, minConfidence: real, maxEdges: real) {
    var places := Places(maxEdges);
    && (forall e :: e in selected ==> SureEnough(e, minConfidence))
    && (forall e :: multiset(selected)[e] <= offered(e)) && Descending(selected)
    && (forall v :: |Taking(selected, v, 0.0)| <= places)
    && (forall e :: SureEnough(e, minConfidence) && multiset(selected)[e] < offered(e) ==>
          Full(e.marketA, selected, e.confidence, places) || Full(e.marketB, selected, e.confidence, places))
  }

  /** How often the list offers an edge. */
  ghost function Offered(edges: seq<Edge>): Edge -> nat {
    (e: Edge) => multiset(edges)[e]
  }

  /** How often the catalog offers an edge between two of the markets. */
  ghost function OfferedAmong(catalog: seq<Edge>, markets: set<string>): Edge -> nat {
    (e: Edge) => if e.marketA in markets && e.marketB in markets then multiset(catalog)[e] else 0
  }

  lemma {:induction false} FilterCounts(p: Edge -> bool, es: seq<Edge>, e: Edge)
    ensures multiset(Filter(p, es))[e] == if p(e) then multiset(es)[e] else 0
  {
    if es != [] {
      FilterCounts(p, es[..|es| - 1], e);
      assert es == es[..|es| - 1] + [es[|es| - 1]];
    }
  }

  lemma {:induction false} GreedyKeepsOrder(es: seq<Edge>, counts: Counts, cap: nat)
    requires Descending(es)
    ensures Descending(Greedy(es, counts, cap)) && multiset(Greedy(es, counts, cap)) <= multiset(es)
  {
    if es != [] {
      var rest := if HasRoom(counts, es[0], cap) then Greedy(es[1..], Counted(counts, es[0]), cap) else [];
      assert es == [es[0]] + es[1..];
      if HasRoom(counts, es[0], cap) {
        GreedyKeepsOrder(es[1..], Counted(counts, es[0]), cap);
        forall i | 0 <= i < |rest|
          ensures es[0].confidence >= rest[i].confidence
        {
          assert rest[i] in multiset(es[1..]);
        }
      } else {
        GreedyKeepsOrder(es[1..], counts, cap);
      }
    }
  }

  lemma SelectedKeepsTheStrongest(edges: seq<Edge>, minConfidence: real, maxEdges: real)
    ensures KeepsTheStrongest(Offered(edges), Selected(edges, minConfidence, maxEdges), minConfidence, maxEdges)
  {
    hide Greedy, Filter, Sort, Degree, StrongDegree, Taking;
    var qualifying, selected := Qualifying(edges, minConfidence), Selected(edges, minConfidence, maxEdges);
    SortedIsDescending(qualifying);
    GreedyKeepsOrder(Sort(ByConfidence(), qualifying), map[], Cap(maxEdges));
    forall e: Edge
      ensures SureEnough(e, minConfidence) <==> AtLeast(Clamp(minConfidence))(e)
      ensures multiset(qualifying)[e] == if SureEnough(e, minConfidence) then multiset(edges)[e] else 0
    {
      FilterCounts(AtLeast(Clamp(minConfidence)), edges, e);
    }
    forall v
      ensures |Taking(selected, v, 0.0)| <= Places(maxEdges)
    {
      StrongIsTaking(selected, v, 0.0);
      DegreeIsStrong(selected, v);
      SelectionRespectsCap(edges, minConfidence, maxEdges, v);
    }
    forall e | e in selected
      ensures SureEnough(e, minConfidence)
    {
      assert multiset(selected)[e] > 0;
    }
    forall e | SureEnough(e, minConfidence) && multiset(selected)[e] < multiset(edges)[e]
      ensures Full(e.marketA, selected, e.confidence, Places(maxEdges))
        || Full(e.marketB, selected, e.confidence, Places(maxEdges))
    {
      DroppedEdgesWereBlocked(edges, minConfidence, maxEdges, e);
      StrongIsTaking(selected, e.marketA, e.confidence);
      StrongIsTaking(selected, e.marketB, e.confidence);
    }
  }

  method ApplyPolicyFilters(edges: seq<Edge>, minConfidence: real, maxEdgesPerMarket: real)
    returns (selected: seq<Edge>)
    ensures selected == Selected(edges, minConfidence, maxEdgesPerMarket)
    ensures KeepsTheStrongest(Offered(edges), selected, minConfidence, maxEdgesPerMarket)
  {
    SelectedKeepsTheStrongest(edges, minConfidence, maxEdgesPerMarket);
    var sorted := Sort(ByConfidence(), Filter(AtLeast(Clamp(minConfidence)), edges));
    selected := TakeCapped(sorted, MaxInt(1, maxEdgesPerMarket.Floor));
    hide KeepsTheStrongest;
  }

  /** The same selection over the catalog's edges between known markets. */
  method ResolveCatalogEdges(catalog: seq<Edge>, markets: set<string>, minConfidence: real, maxEdgesPerMarket: real)
    returns (selected: seq<Edge>)
    ensures selected == Selected(Filter(Inside(markets), catalog), minConfidence, maxEdgesPerMarket)
    ensures KeepsTheStrongest(OfferedAmong(catalog, markets), selected, minConfidence, maxEdgesPerMarket)
  {
    var known := Filter(Inside(markets), catalog);
    var sorted := Sort(ByConfidence(), Filter(AtLeast(Clamp(minConfidence)), known));
    selected := TakeCapped(sorted, MaxInt(1, maxEdgesPerMarket.Floor));
    hide Greedy, Filter, Sort;
    SelectedKeepsTheStrongest(known, minConfidence, maxEdgesPerMarket);
    forall e
      ensures OfferedAmong(catalog, markets)(e) == Offered(known)(e)
    {
      FilterCounts(Inside(markets), catalog, e);
    }
  }
}

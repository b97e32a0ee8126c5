/** Deterministic edges between markets, the cohorts they form, and the graph quality statistics. */
module Cohorts {
  import opened Prelude
  import opened StableSort
  import opened Names
  import opened Dependency
  import opened MarketGraph

  datatype Market = Market(marketId: string, question: Option<string>, category: Option<string>, tags: seq<string>)

  /** The text heuristics, as any function of the two markets. */
  type RelationTest = (Market, Market) -> Option<(Relation, Confidence)>

  datatype Cohort = Cohort(markets: set<string>, edgeCount: nat, density: real)

  const MIN_MARKETS: nat := 2

  // ------------------------------------------------------------------ the pair loop

  /** The edge of one pair, if the test relates it, after what came before. */
  function Related(before: seq<Edge>, left: Market, right: Market, test: RelationTest): seq<Edge> {
    var r := test(left, right);
    if r.None? then before else before + [Edge(left.marketId, right.marketId, r.value.0, r.value.1)]
  }

  /** Every pair whose first market is before `i`, then the pairs of `i` with those before `j`. */
  function PairEdges(markets: seq<Market>, i: nat, j: nat, test: RelationTest): seq<Edge>
    requires i <= |markets| && j <= |markets|
    decreases i, j
  {
    if i == |markets| || j <= i + 1 then
      if i == 0 then [] else PairEdges(markets, i - 1, |markets|, test)
    else
      Related(PairEdges(markets, i, j - 1, test), markets[i], markets[j - 1], test)
  }

  function SortedEnds(es: seq<Edge>): (r: seq<Edge>)
    ensures |r| == |es|
    ensures forall i :: 0 <= i < |es| ==> r[i] == WithSortedMarkets(es[i])
  {
    if es == [] then [] else SortedEnds(es[..|es| - 1]) + [WithSortedMarkets(es[|es| - 1])]
  }

  function DeterministicEdges(markets: seq<Market>, test: RelationTest): seq<Edge> {
    SortedEnds(PairEdges(markets, |markets|, 0, test))
  }

  function EndsOf(e: Edge): set<string> {
    {e.marketA, e.marketB}
  }

  /** No loops, and no two edges between the same two markets. */
  ghost predicate Simple(es: seq<Edge>) {
    && (forall i :: 0 <= i < |es| ==> es[i].marketA != es[i].marketB)
    && (forall i, j :: 0 <= i < j < |es| ==> EndsOf(es[i]) != EndsOf(es[j]))
  }

  ghost predicate DistinctIds(markets: seq<Market>) {
    forall i, j :: 0 <= i < j < |markets| ==> markets[i].marketId != markets[j].marketId
  }

  /** `e` joins markets number `a` and `b`. */
  predicate From(markets: seq<Market>, e: Edge, a: nat, b: nat) {
    a < b < |markets| && e.marketA == markets[a].marketId && e.marketB == markets[b].marketId
  }

  ghost predicate Origin(markets: seq<Market>, e: Edge, i: nat, j: nat) {
    exists a: nat, b: nat :: From(markets, e, a, b) && (a < i || (a == i && b < j))
  }

  lemma DifferentPairs(markets: seq<Market>, e: Edge, i: nat, j: nat, next: Edge)
    requires DistinctIds(markets) && Origin(markets, e, i, j) && From(markets, next, i, j)
    ensures EndsOf(e) != EndsOf(next)
  {
    var a: nat, b: nat :| From(markets, e, a, b) && (a < i || (a == i && b < j));
    assert e.marketA in EndsOf(e) && e.marketB in EndsOf(e);
  }

  lemma {:induction false} PairEdgesAreSimple(markets: seq<Market>, i: nat, j: nat, test: RelationTest)
    requires i <= |markets| && j <= |markets| && DistinctIds(markets)
    ensures Simple(PairEdges(markets, i, j, test))
    ensures forall e :: e in PairEdges(markets, i, j, test) ==> Origin(markets, e, i, j)
    decreases i, j
  {
    if i == |markets| || j <= i + 1 {
      if i > 0 {
        PairEdgesAreSimple(markets, i - 1, |markets|, test);
        forall e | e in PairEdges(markets, i - 1, |markets|, test)
          ensures Origin(markets, e, i, j)
        {
          assert Origin(markets, e, i - 1, |markets|);
        }
      }
    } else {
      PairEdgesAreSimple(markets, i, j - 1, test);
      var before := PairEdges(markets, i, j - 1, test);
      forall e | e in before
        ensures Origin(markets, e, i, j)
      {
        assert Origin(markets, e, i, j - 1);
      }
      var r := test(markets[i], markets[j - 1]);
      if r.Some? {
        var next := Edge(markets[i].marketId, markets[j - 1].marketId, r.value.0, r.value.1);
        assert From(markets, next, i, j - 1);
        forall k | 0 <= k < |before|
          ensures EndsOf(before[k]) != EndsOf(next)
        {
          assert before[k] in before;
          DifferentPairs(markets, before[k], i, j - 1, next);
        }
      }
    }
  }

  /** Distinct market ids give edges between distinct pairs, each between two of the markets. */
  lemma DeterministicEdgesAreSimple(markets: seq<Market>, test: RelationTest)
    requires DistinctIds(markets)
    ensures Simple(DeterministicEdges(markets, test))
    ensures Touched(DeterministicEdges(markets, test)) <= Ids(markets)
  {
    var raw := PairEdges(markets, |markets|, 0, test);
    var es := DeterministicEdges(markets, test);
    PairEdgesAreSimple(markets, |markets|, 0, test);
    forall i | 0 <= i < |es|
      ensures EndsOf(es[i]) == EndsOf(raw[i]) && EndsOf(es[i]) <= Ids(markets)
    {
      assert raw[i] in raw && Origin(markets, raw[i], |markets|, 0);
      assert {raw[i].marketA, raw[i].marketB} == {raw[i].marketB, raw[i].marketA};
    }
    forall v | v in Touched(es)
      ensures v in Ids(markets)
    {
      var e := TouchedHasNeighbor(es, v);
      assert v in EndsOf(e);
    }
  }

  /** Two markets are joined exactly when the test relates them, in the order they are listed. */
  lemma {:induction false} PairIsRelated(markets: seq<Market>, i: nat, j: nat, test: RelationTest, a: nat, b: nat)
    requires i <= |markets| && j <= |markets| && DistinctIds(markets)
    requires a < b < |markets| && (a < i || (a == i && b < j))
    ensures (exists e :: e in PairEdges(markets, i, j, test) && From(markets, e, a, b)) <==>
      test(markets[a], markets[b]).Some?
    decreases i, j
  {
    var all := PairEdges(markets, i, j, test);
    if i == |markets| || j <= i + 1 {
      PairIsRelated(markets, i - 1, |markets|, test, a, b);
    } else {
      var before := PairEdges(markets, i, j - 1, test);
      var r := test(markets[i], markets[j - 1]);
      if a == i && b == j - 1 {
        PairEdgesAreSimple(markets, i, j - 1, test);
        var pair := Edge(markets[i].marketId, markets[j - 1].marketId, MutualExclusive, 0.0);
        assert From(markets, pair, a, b);
        forall e | e in before
          ensures !From(markets, e, a, b)
        {
          DifferentPairs(markets, e, i, j - 1, pair);
        }
        if r.Some? {
          var next := Edge(markets[i].marketId, markets[j - 1].marketId, r.value.0, r.value.1);
          assert all[|all| - 1] == next && From(markets, next, a, b);
        }
      } else {
        PairIsRelated(markets, i, j - 1, test, a, b);
        if e :| e in before && From(markets, e, a, b) {
          assert e in all;
        }
        if e :| e in all && From(markets, e, a, b) {
          assert e in before;
        }
      }
    }
  }

  /** The edge comes from this pair of places, the test's relation and confidence with it. */
  ghost predicate FromPair(markets: seq<Market>, test: RelationTest, e: Edge, a: int, b: int) {
    && 0 <= a < b < |markets| && test(markets[a], markets[b]) == Some((e.relation, e.confidence))
    && e.marketA == markets[a].marketId && e.marketB == markets[b].marketId
  }

  /** The pair loop so far has visited the pair. */
  ghost predicate Visited(markets: seq<Market>, i: nat, j: nat, a: int, b: int) {
    a < i || (a == i && b < j)
  }

  lemma {:induction false} PairEdgesAre(markets: seq<Market>, i: nat, j: nat, test: RelationTest, e: Edge)
    requires i <= |markets| && j <= |markets|
    ensures e in PairEdges(markets, i, j, test) <==>
      exists a, b :: FromPair(markets, test, e, a, b) && Visited(markets, i, j, a, b)
    decreases i, j
  {
    var n := |markets|;
    if i == n || j <= i + 1 {
      if i > 0 {
        PairEdgesAre(markets, i - 1, n, test, e);
        forall a, b | FromPair(markets, test, e, a, b)
          ensures Visited(markets, i, j, a, b) <==> Visited(markets, i - 1, n, a, b)
        {
        }
      }
    } else {
      PairEdgesAre(markets, i, j - 1, test, e);
      forall a, b | FromPair(markets, test, e, a, b)
        ensures Visited(markets, i, j, a, b) <==> Visited(markets, i, j - 1, a, b) || (a == i && b == j - 1)
      {
      }
      if e in PairEdges(markets, i, j, test) && e !in PairEdges(markets, i, j - 1, test) {
        assert FromPair(markets, test, e, i, j - 1);
      }
    }
  }

  /** An edge between different markets that the test relates, its ends in order unless it has a direction. */
  ghost predicate Links(markets: seq<Market>, test: RelationTest, e: Edge, a: int, b: int) {
    && 0 <= a < b < |markets| && markets[a].marketId != markets[b].marketId
    && test(markets[a], markets[b]) == Some((e.relation, e.confidence))
    && (if e.relation == Implies || Lexical(markets[a].marketId, markets[b].marketId) then
          e.marketA == markets[a].marketId && e.marketB == markets[b].marketId
        else e.marketA == markets[b].marketId && e.marketB == markets[a].marketId)
  }

  lemma {:induction false} SortedEndsMembers(es: seq<Edge>, e: Edge)
    ensures e in SortedEnds(es) <==> exists f :: f in es && e == WithSortedMarkets(f)
  {
    var r := SortedEnds(es);
    if e in r {
      var i :| 0 <= i < |r| && r[i] == e;
      assert es[i] in es;
    }
    if f :| f in es && e == WithSortedMarkets(f) {
      var i :| 0 <= i < |es| && es[i] == f;
      assert r[i] == e;
    }
  }

  /** The edges a cohort search works on are exactly those links. */
  lemma CohortEdgesAre(markets: seq<Market>, test: RelationTest, e: Edge)
    ensures e in CohortEdges(markets, test) <==> exists a, b :: Links(markets, test, e, a, b)
  {
    var all, n := PairEdges(markets, |markets|, 0, test), |markets|;
    hide PairEdges, WithSortedMarkets, Lexical;
    FilterMembers(NotLoop(), DeterministicEdges(markets, test));
    SortedEndsMembers(all, e);
    if e in CohortEdges(markets, test) {
      var f :| f in all && e == WithSortedMarkets(f);
      PairEdgesAre(markets, n, 0, test, f);
      SortedEndsAre(f);
      var a, b :| FromPair(markets, test, f, a, b);
      assert Links(markets, test, e, a, b);
    }
    if a, b :| Links(markets, test, e, a, b) {
      var f := Edge(markets[a].marketId, markets[b].marketId, e.relation, e.confidence);
      PairEdgesAre(markets, n, 0, test, f);
      assert FromPair(markets, test, f, a, b) && Visited(markets, n, 0, a, b);
      SortedEndsAre(f);
      assert e == WithSortedMarkets(f);
    }
  }

  function Ids(markets: seq<Market>): set<string> {
    set m | m in markets :: m.marketId
  }

  // ------------------------------------------------------------------ edges inside a component

  function NotLoop(): Edge -> bool {
    (e: Edge) => e.marketA != e.marketB
  }

  ghost function EndSets(es: seq<Edge>): set<set<string>> {
    set e | e in es :: EndsOf(e)
  }

  ghost function PairsIn(es: seq<Edge>, c: set<string>): set<set<string>> {
    set e | e in es && Inside(c)(e) :: EndsOf(e)
  }

  function Density(edgeCount: nat, n: nat): real {
    var possible := (n * (n - 1)) as real / 2.0;
    if possible > 0.0 then edgeCount as real / possible else 0.0
  }

  function CohortOf(c: set<string>, es: seq<Edge>): Cohort {
    Cohort(c, |Filter(Inside(c), es)|, Density(|Filter(Inside(c), es)|, |c|))
  }

  /** Components too small are dropped. */
  function CohortsOf(comps: seq<set<string>>, es: seq<Edge>): seq<Cohort> {
    if comps == [] then []
    else
      var before, c := CohortsOf(comps[..|comps| - 1], es), comps[|comps| - 1];
      if |c| < MIN_MARKETS then before else before + [CohortOf(c, es)]
  }

  function MarketSets(cohorts: seq<Cohort>): (r: seq<set<string>>)
    ensures |r| == |cohorts| && forall i :: 0 <= i < |cohorts| ==> r[i] == cohorts[i].markets
  {
    seq(|cohorts|, i requires 0 <= i < |cohorts| => cohorts[i].markets)
  }

  ghost function CohortsFound(es: seq<Edge>): seq<Cohort> {
    CohortsOf(Search(Adjacency(es), {""}, Adjacency(es).keys, {}), es)
  }

  lemma {:induction false} FilteredAreSimple(p: Edge -> bool, es: seq<Edge>)
    requires Simple(es)
    ensures Simple(Filter(p, es))
  {
    if es != [] {
      var front, e := es[..|es| - 1], es[|es| - 1];
      FilteredAreSimple(p, front);
      FilterMembers(p, front);
      var kept := Filter(p, front);
      forall i | 0 <= i < |kept|
        ensures EndsOf(kept[i]) != EndsOf(e)
      {
        assert kept[i] in kept;
        var k :| 0 <= k < |front| && front[k] == kept[i];
      }
    }
  }

  lemma {:induction false} DistinctEndsCount(es: seq<Edge>)
    requires Simple(es)
    ensures |EndSets(es)| == |es|
  {
    if es != [] {
      var front, last := es[..|es| - 1], es[|es| - 1];
      DistinctEndsCount(front);
      assert es == front + [last];
      assert EndSets(es) == EndSets(front) + {EndsOf(last)};
      forall p | p in EndSets(front)
        ensures p != EndsOf(last)
      {
        var e :| e in front && p == EndsOf(e);
      }
    }
  }

  lemma InsideCountsPairs(es: seq<Edge>, c: set<string>)
    requires Simple(es)
    ensures |Filter(Inside(c), es)| == |PairsIn(es, c)|
  {
    FilteredAreSimple(Inside(c), es);
    FilterMembers(Inside(c), es);
    DistinctEndsCount(Filter(Inside(c), es));
    assert EndSets(Filter(Inside(c), es)) == PairsIn(es, c);
  }

  /** Pairs that share a market are at most as many as the markets they reach. */
  lemma {:induction false} StarBound(pairs: set<set<string>>, x: string, others: set<string>)
    requires x !in others && forall p :: p in pairs ==> exists y :: y in others && p == {x, y}
    ensures |pairs| <= |others|
    decreases |others|
  {
    if others == {} {
      assert pairs == {};
    } else {
      var y :| y in others;
      forall p | p in pairs - {{x, y}}
        ensures exists z :: z in others - {y} && p == {x, z}
      {
        var z :| z in others && p == {x, z};
        assert z != y;
      }
      StarBound(pairs - {{x, y}}, x, others - {y});
      assert pairs <= (pairs - {{x, y}}) + {{x, y}};
      SubsetSize(pairs, (pairs - {{x, y}}) + {{x, y}});
    }
  }

  lemma OtherEnd(p: set<string>, x: string, c: set<string>) returns (y: string)
    requires |p| == 2 && x in p && p <= c
    ensures y in c - {x} && p == {x, y}
  {
    assert |p - {x}| == 1;
    y :| y in p - {x};
    assert |p - {x} - {y}| == 0;
    assert p == {x, y};
  }

  function Choose2(n: nat): nat {
    if n == 0 then 0 else Choose2(n - 1) + (n - 1)
  }

  lemma {:induction false} Choose2Closed(n: nat)
    ensures 2 * Choose2(n) == n * (n - 1)
  {
    if n > 0 {
      Choose2Closed(n - 1);
    }
  }

  function Holding(pairs: set<set<string>>, x: string): set<set<string>> {
    set p | p in pairs && x in p
  }

  lemma HoldingBound(pairs: set<set<string>>, c: set<string>, x: string)
    requires x in c && forall p :: p in pairs ==> |p| == 2 && p <= c
    ensures |Holding(pairs, x)| <= |c| - 1
  {
    forall p | p in Holding(pairs, x)
      ensures exists y :: y in c - {x} && p == {x, y}
    {
      var y := OtherEnd(p, x, c);
    }
    StarBound(Holding(pairs, x), x, c - {x});
  }

  /** n markets have at most n(n-1)/2 pairs. */
  lemma {:induction false} PairBound(pairs: set<set<string>>, c: set<string>)
    requires forall p :: p in pairs ==> |p| == 2 && p <= c
    ensures |pairs| <= Choose2(|c|)
    decreases |c|
  {
    if x :| x in c {
      var with := Holding(pairs, x);
      HoldingBound(pairs, c, x);
      PairBound(pairs - with, c - {x});
      assert pairs == with + (pairs - with);
    } else {
      assert c == {} && pairs == {};
    }
  }

  lemma {:induction false} Crossing(es: seq<Edge>, inside: set<string>, p: seq<string>) returns (u: string, v: string)
    requires Walk(es, p) && p[0] in inside && p[|p| - 1] !in inside
    ensures u in inside && v !in inside && Joined(es, u, v)
    decreases |p|
  {
    u, v := p[|p| - 2], p[|p| - 1];
    if u !in inside {
      u, v := Crossing(es, inside, p[..|p| - 1]);
    }
  }

  lemma OneMorePair(es: seq<Edge>, s: set<string>, u: string, v: string)
    requires u in s && v !in s && Joined(es, u, v)
    ensures |PairsIn(es, s + {v})| >= |PairsIn(es, s)| + 1
  {
    var e :| e in es && Ends(e, u, v);
    assert Inside(s + {v})(e);
    assert EndsOf(e) in PairsIn(es, s + {v}) && v in EndsOf(e);
    assert EndsOf(e) !in PairsIn(es, s);
    forall p | p in PairsIn(es, s)
      ensures p in PairsIn(es, s + {v})
    {
      var f :| f in es && Inside(s)(f) && p == EndsOf(f);
      assert Inside(s + {v})(f);
    }
    SubsetSize(PairsIn(es, s) + {EndsOf(e)}, PairsIn(es, s + {v}));
  }

  /** Part of a component with enough pairs grows, one market and one pair at a time, to all of it. */
  lemma {:induction false} TreeBound(es: seq<Edge>, m: string, s: set<string>)
    requires m in s && s <= ComponentOf(es, m) && |PairsIn(es, s)| >= |s| - 1
    ensures |PairsIn(es, ComponentOf(es, m))| >= |ComponentOf(es, m)| - 1
    decreases |ComponentOf(es, m) - s|
  {
    var c := ComponentOf(es, m);
    if b :| b in c - s {
      var p :| WalkFrom(es, m, b, p);
      var u, v := Crossing(es, s, p);
      JoinedIsTouched(es, u, v);
      ConnectedStep(es, m, u, v);
      OneMorePair(es, s, u, v);
      assert c - s == (c - (s + {v})) + {v};
      TreeBound(es, m, s + {v});
    } else {
      forall v | v in c
        ensures v in s
      {
        assert v !in c - s;
      }
      assert s == c;
    }
  }

  lemma PairsHaveTwo(es: seq<Edge>, c: set<string>)
    requires Simple(es)
    ensures forall p :: p in PairsIn(es, c) ==> |p| == 2 && p <= c
  {
    forall p | p in PairsIn(es, c)
      ensures |p| == 2 && p <= c
    {
      var e :| e in es && Inside(c)(e) && p == EndsOf(e);
      var i :| 0 <= i < |es| && es[i] == e;
    }
  }

  lemma DensityBounds(edgeCount: nat, n: nat)
    requires n >= 2 && edgeCount >= n - 1 && 2 * edgeCount <= n * (n - 1)
    ensures 2.0 / n as real <= Density(edgeCount, n) <= 1.0
  {
    var r := n as real;
    var possible := (n * (n - 1)) as real / 2.0;
    assert (n * (n - 1)) as real == r * (r - 1.0);
    assert possible > 0.0;
    assert edgeCount as real <= possible;
    QuotientAtMostOne(edgeCount as real, possible);
    QuotientAtLeast(edgeCount as real, r);
  }

  lemma QuotientAtMostOne(e: real, d: real)
    requires d > 0.0 && e <= d
    ensures e / d <= 1.0
  {
    assert e / d <= d / d;
  }

  lemma QuotientAtLeast(e: real, r: real)
    requires r >= 2.0 && e >= r - 1.0
    ensures r * (r - 1.0) / 2.0 > 0.0
    ensures 2.0 / r <= e / (r * (r - 1.0) / 2.0)
  {
    var d := r * (r - 1.0) / 2.0;
    assert r * (r - 1.0) >= 2.0 * (r - 1.0);
    assert (2.0 / r) * d == r - 1.0 by {
      assert (2.0 / r) * r == 2.0;
      Regroup(2.0 / r, r);
    }
    DividesOver(2.0 / r, e, d);
  }

  lemma Regroup(q: real, r: real)
    requires q * r == 2.0
    ensures q * (r * (r - 1.0) / 2.0) == r - 1.0
  {
    assert q * (r * (r - 1.0) / 2.0) == (q * r) * (r - 1.0) / 2.0;
  }

  lemma DividesOver(q: real, e: real, d: real)
    requires d > 0.0 && q * d <= e
    ensures q <= e / d
  {
    assert q == (q * d) / d;
    assert (q * d) / d <= e / d;
  }

  ghost predicate WellSized(k: Cohort) {
    var n := |k.markets|;
    && n >= MIN_MARKETS && n - 1 <= k.edgeCount && 2 * k.edgeCount <= n * (n - 1)
    && 2.0 / n as real <= k.density <= 1.0
  }

  lemma PairCountBounds(es: seq<Edge>, m: string)
    requires Simple(es) && m in Touched(es)
    ensures var n := |ComponentOf(es, m)|;
      n - 1 <= |PairsIn(es, ComponentOf(es, m))| <= Choose2(n)
  {
    ConnectedSelf(es, m);
    assert |{m}| == 1;
    TreeBound(es, m, {m});
    PairsHaveTwo(es, ComponentOf(es, m));
    PairBound(PairsIn(es, ComponentOf(es, m)), ComponentOf(es, m));
  }

  /** A component has at least two markets, n-1 to n(n-1)/2 edges, and a density between 2/n and 1. */
  lemma ComponentBounds(es: seq<Edge>, m: string)
    requires Simple(es) && m in Touched(es)
    ensures WellSized(CohortOf(ComponentOf(es, m), es))
  {
    var c := ComponentOf(es, m);
    AtLeastTwo(es, m);
    PairCountBounds(es, m);
    InsideCountsPairs(es, c);
    CountsGiveDensity(CohortOf(c, es));
  }

  lemma CountsGiveDensity(k: Cohort)
    requires |k.markets| >= MIN_MARKETS && |k.markets| - 1 <= k.edgeCount <= Choose2(|k.markets|)
    requires k.density == Density(k.edgeCount, |k.markets|)
    ensures WellSized(k)
  {
    Choose2Closed(|k.markets|);
    DensityBounds(k.edgeCount, |k.markets|);
  }

  lemma AtLeastTwo(es: seq<Edge>, m: string)
    requires m in Touched(es) && forall i :: 0 <= i < |es| ==> es[i].marketA != es[i].marketB
    ensures |ComponentOf(es, m)| >= 2
  {
    var e := TouchedHasNeighbor(es, m);
    var other := if e.marketA == m then e.marketB else e.marketA;
    assert Ends(e, m, other);
    ConnectedSelf(es, m);
    ConnectedStep(es, m, m, other);
    JoinedIsTouched(es, m, other);
    var i :| 0 <= i < |es| && es[i] == e;
    SubsetSize({m, other}, ComponentOf(es, m));
  }

  lemma {:induction false} NothingDropped(comps: seq<set<string>>, es: seq<Edge>)
    requires forall c :: c in comps ==> |c| >= MIN_MARKETS
    ensures MarketSets(CohortsOf(comps, es)) == comps
    ensures forall k :: k in CohortsOf(comps, es) ==> k == CohortOf(k.markets, es) && k.markets in comps
  {
    if comps != [] {
      NothingDropped(comps[..|comps| - 1], es);
      assert comps == comps[..|comps| - 1] + [comps[|comps| - 1]];
    }
  }

  /** With distinct pairs of non-empty ids the cohorts are exactly the connected components, within those bounds. */
  lemma CohortsAreComponents(es: seq<Edge>)
    requires Simple(es) && "" !in Touched(es)
    ensures Exact(es, MarketSets(CohortsFound(es)))
    ensures forall k :: k in CohortsFound(es) ==> WellSized(k)
  {
    var comps := Search(Adjacency(es), {""}, Adjacency(es).keys, {});
    SearchIsExact(es, {""});
    ExactAreWellSized(es, comps);
    NothingDropped(comps, es);
  }

  lemma ExactAreWellSized(es: seq<Edge>, comps: seq<set<string>>)
    requires Simple(es) && Exact(es, comps)
    ensures forall c :: c in comps ==> |c| >= MIN_MARKETS && WellSized(CohortOf(c, es))
  {
    forall c | c in comps
      ensures |c| >= MIN_MARKETS && WellSized(CohortOf(c, es))
    {
      assert c in Components(es);
      var m :| m in Touched(es) && c == ComponentOf(es, m);
      ComponentBounds(es, m);
    }
  }

  // ------------------------------------------------------------------ the empty id

  ghost predicate Over(es: seq<Edge>, ids: set<string>) {
    Simple(es) && Touched(es) <= ids
  }

  /** However the markets are related, the cohorts are the connected components. */
  ghost predicate AlwaysExact(ids: set<string>) {
    forall es :: Over(es, ids) ==> Exact(es, MarketSets(CohortsFound(es)))
  }

  /** A search that may not leave its start, or may enter no neighbour of it, finds the start alone. */
  lemma ReachIsStart(g: Graph, avoid: set<string>, stop: set<string>, start: string)
    requires forall v :: !Hop(g, avoid, stop, start, v)
    ensures Reach(g, avoid, stop, start) == {start}
  {
    assert PathTo(g, avoid, stop, start, start, [start]);
    forall v | v in Reach(g, avoid, stop, start)
      ensures v == start
    {
      var p :| PathTo(g, avoid, stop, start, v, p);
      if |p| > 1 {
        FirstHop(g, avoid, stop, p);
      }
    }
  }

  lemma PairGraph(e: Edge)
    requires e.marketA != e.marketB
    ensures Adjacency([e]) == Graph([e.marketA, e.marketB], map[e.marketA := [e.marketB], e.marketB := [e.marketA]])
  {
    assert [e][..0] == [];
    assert Adjacency([]) == Graph([], map[]);
    assert [] + [e.marketA] == [e.marketA] && [] + [e.marketB] == [e.marketB];
    assert Linked(Graph([], map[]), e.marketA, e.marketB) == Graph([e.marketA], map[e.marketA := [e.marketB]]);
  }

  lemma SearchFromEmptyId(g: Graph, x: string)
    requires x != "" && g.keys == ["", x] && Neighbors(g, x) == [""]
    ensures Search(g, {""}, g.keys, {}) == [{""}, {x}]
  {
    ReachIsStart(g, {}, {""}, "");
    ReachIsStart(g, {""}, {""}, x);
    assert {} + {""} == {""};
    assert [x][1..] == [];
    assert Search(g, {""}, [x], {""}) == [{x}];
    assert ["", x][1..] == [x];
  }

  lemma SinglesAreDropped(a: string, b: string, es: seq<Edge>)
    ensures CohortsOf([{a}, {b}], es) == []
  {
    assert |{a}| == 1 && |{b}| == 1;
    assert [{a}][..0] == [];
    assert CohortsOf([{a}], es) == [];
    assert [{a}, {b}][..1] == [{a}];
  }

  /** A pair with the empty id: the search starts at it, skips it, and finds the other market alone. */
  lemma EmptyIdIsNotExpanded(x: string, e: Edge)
    requires x != "" && e.marketA == "" && e.marketB == x
    ensures CohortsFound([e]) == []
    ensures Components([e]) != {}
  {
    PairGraph(e);
    SearchFromEmptyId(Adjacency([e]), x);
    SinglesAreDropped("", x, [e]);
    assert e in [e];
    assert ComponentOf([e], x) in Components([e]);
  }

  lemma {:induction false} FirstHop(g: Graph, avoid: set<string>, stop: set<string>, p: seq<string>)
    requires Path(g, avoid, stop, p) && |p| > 1
    ensures Hop(g, avoid, stop, p[0], p[1])
    decreases |p|
  {
    if |p| > 2 {
      FirstHop(g, avoid, stop, p[..|p| - 1]);
    }
  }

  /** The search is exact for every way of relating two or more markets if and only if no id is empty. */
  lemma ExactIffNoEmptyId(ids: set<string>)
    requires |ids| >= 2
    ensures AlwaysExact(ids) <==> "" !in ids
  {
    if "" !in ids {
      forall es | Over(es, ids)
        ensures Exact(es, MarketSets(CohortsFound(es)))
      {
        CohortsAreComponents(es);
      }
    } else {
      assert ids - {""} != {} by {
        SubsetSize(ids, {""} + (ids - {""}));
      }
      var x :| x in ids - {""};
      var e := Edge("", x, MutualExclusive, 0.9);
      EmptyIdIsNotExpanded(x, e);
      assert Over([e], ids);
    }
  }

  // ------------------------------------------------------------------ the code

  method ExtractDeterministicEdges(markets: seq<Market>, test: RelationTest) returns (edges: seq<Edge>)
    ensures edges == DeterministicEdges(markets, test)
  {
    var raw: seq<Edge> := [];
    var i := 0;
    while i < |markets|
      invariant 0 <= i <= |markets|
      invariant raw == PairEdges(markets, i, 0, test)
    {
      var j := i + 1;
      while j < |markets|
        invariant i + 1 <= j <= |markets|
        invariant raw == PairEdges(markets, i, j, test)
      {
        var r := test(markets[i], markets[j]);
        if r.Some? {
          raw := raw + [Edge(markets[i].marketId, markets[j].marketId, r.value.0, r.value.1)];
        }
        j := j + 1;
      }
      i := i + 1;
    }
    return SortedEnds(raw);
  }

  method CountComponentEdges(component: set<string>, edges: seq<Edge>) returns (edgeCount: nat)
    ensures edgeCount == |Filter(Inside(component), edges)|
  {
    edgeCount := 0;
    var i := 0;
    while i < |edges|
      invariant 0 <= i <= |edges|
      invariant edgeCount == |Filter(Inside(component), edges[..i])|
    {
      assert edges[..i + 1] == edges[..i] + [edges[i]];
      FilterPush(Inside(component), edges[..i], edges[i]);
      if edges[i].marketA in component && edges[i].marketB in component {
        edgeCount := edgeCount + 1;
      }
      i := i + 1;
    }
    assert edges[..i] == edges;
  }

  method ToCohort(component: set<string>, edges: seq<Edge>) returns (cohort: Option<Cohort>)
    ensures cohort == if |component| < MIN_MARKETS then None else Some(CohortOf(component, edges))
  {
    if |component| < MIN_MARKETS {
      return None;
    }
    var edgeCount := CountComponentEdges(component, edges);
    var n := |component|;
    var possible := (n * (n - 1)) as real / 2.0;
    var density := if possible > 0.0 then edgeCount as real / possible else 0.0;
    return Some(Cohort(component, edgeCount, density));
  }

  method KeepCohorts(comps: seq<set<string>>, edges: seq<Edge>) returns (cohorts: seq<Cohort>)
    ensures cohorts == CohortsOf(comps, edges)
  {
    cohorts := [];
    var i := 0;
    while i < |comps|
      invariant 0 <= i <= |comps|
      invariant cohorts == CohortsOf(comps[..i], edges)
    {
      assert comps[..i + 1][..i] == comps[..i];
      var cohort := ToCohort(comps[i], edges);
      if cohort.Some? {
        cohorts := cohorts + [cohort.value];
      }
      i := i + 1;
    }
    assert comps[..i] == comps;
  }

  /** The edges a cohort search works on. */
  function CohortEdges(markets: seq<Market>, test: RelationTest): seq<Edge> {
    if |markets| < MIN_MARKETS then [] else Filter(NotLoop(), DeterministicEdges(markets, test))
  }

  /** The cohorts in the order they are found. */
  method FindCohorts(markets: seq<Market>, test: RelationTest) returns (cohorts: seq<Cohort>)
    ensures cohorts == CohortsFound(CohortEdges(markets, test))
  {
    var edges := [];
    if |markets| >= MIN_MARKETS {
      edges := ExtractDeterministicEdges(markets, test);
      edges := Filter(NotLoop(), edges);
    }
    var g := BuildAdjacency(edges);
    var comps := FindComponents(g);
    cohorts := KeepCohorts(comps, edges);
  }

  lemma CohortEdgesAreSimple(markets: seq<Market>, test: RelationTest)
    requires DistinctIds(markets)
    ensures Simple(CohortEdges(markets, test)) && Touched(CohortEdges(markets, test)) <= Ids(markets)
  {
    DeterministicEdgesAreSimple(markets, test);
    FilteredAreSimple(NotLoop(), DeterministicEdges(markets, test));
    FilterMembers(NotLoop(), DeterministicEdges(markets, test));
  }

  // ------------------------------------------------------------------ quality statistics

  function Known(markets: set<string>): Edge -> bool {
    (e: Edge) => e.marketA in markets && e.marketB in markets && e.marketA != e.marketB
  }

  function NonEmpty(ids: seq<string>): set<string> {
    set m | m in ids && m != ""
  }

  method BuildKnownAdjacency(edges: seq<Edge>, markets: set<string>) returns (g: Graph)
    ensures g == Adjacency(Filter(Known(markets), edges))
  {
    g := Graph([], map[]);
    var i := 0;
    while i < |edges|
      invariant 0 <= i <= |edges|
      invariant g == Adjacency(Filter(Known(markets), edges[..i]))
    {
      var e := edges[i];
      ghost var before := Filter(Known(markets), edges[..i]);
      assert edges[..i + 1] == edges[..i] + [e];
      FilterPush(Known(markets), edges[..i], e);
      assert (before + [e])[..|before|] == before;
      if e.marketA in markets && e.marketB in markets && e.marketA != e.marketB {
        g := Linked(Linked(g, e.marketA, e.marketB), e.marketB, e.marketA);
      }
      i := i + 1;
    }
    assert edges[..i] == edges;
  }

  /** The component count and the coverage of the known, loop-free edges. */
  method QualityStats(ids: seq<string>, edges: seq<Edge>) returns (componentCount: nat, coverage: real)
    ensures componentCount == |Components(Filter(Known(NonEmpty(ids)), edges))|
    ensures coverage == Share(|Touched(Filter(Known(NonEmpty(ids)), edges))|, |NonEmpty(ids)|)
    ensures 0.0 <= coverage <= 1.0
    ensures var named := set m | m in ids && m != "";
      coverage == if named == {} then 0.0 else |Touched(Filter(Known(named), edges))| as real / |named| as real
  {
    hide Touched, Joined, Known, Share, Components, Search;
    var marketSet := NonEmpty(ids);
    ghost var known := Filter(Known(marketSet), edges);
    var g := BuildKnownAdjacency(edges, marketSet);
    componentCount := CountComponents(g);
    CountIsComponents(known);
    CoverageBounds(edges, marketSet);
    coverage := if |marketSet| > 0 then |g.keys| as real / |marketSet| as real else 0.0;
    ShareIs(|g.keys|, |marketSet|);
    ShareBounds(|g.keys|, |marketSet|);
    assert coverage == Share(|g.keys|, |marketSet|) && |g.keys| == |Touched(known)|;
    NamedIs(ids);
    hide Filter, Adjacency, NonEmpty;
  }

  lemma NamedIs(ids: seq<string>)
    ensures NonEmpty(ids) == set m | m in ids && m != ""
  {
  }

  function Share(part: nat, whole: nat): real {
    if whole > 0 then part as real / whole as real else 0.0
  }

  lemma ShareIs(part: nat, whole: nat)
    requires part <= whole
    ensures Share(part, whole) == if whole > 0 then part as real / whole as real else 0.0
  {
  }

  lemma ShareBounds(part: nat, whole: nat)
    requires part <= whole
    ensures 0.0 <= Share(part, whole) <= 1.0
  {
    if whole > 0 {
      QuotientAtMostOne(part as real, whole as real);
      DividesOver(0.0, part as real, whole as real);
    }
  }

  /** Those edges join exactly the markets of the list that the given ones join, itself and the nameless one apart. */
  lemma KnownJoins(ids: seq<string>, edges: seq<Edge>)
    ensures forall a, b :: Joined(Filter(Known(NonEmpty(ids)), edges), a, b) <==>
      a != b && a != "" && b != "" && a in ids && b in ids && Joined(edges, a, b)
  {
    FilterMembers(Known(NonEmpty(ids)), edges);
  }

  lemma CountIsComponents(known: seq<Edge>)
    ensures |Search(Adjacency(known), {}, Adjacency(known).keys, {})| == |Components(known)|
  {
    SearchIsExact(known, {});
    CountIsSetSize(Search(Adjacency(known), {}, Adjacency(known).keys, {}));
  }

  ghost predicate Distinct(keys: seq<string>) {
    forall i, j :: 0 <= i < j < |keys| ==> keys[i] != keys[j]
  }

  lemma LinkedDistinct(g: Graph, a: string, b: string)
    requires Distinct(g.keys) && forall u :: u in g.keys <==> u in g.next
    ensures Distinct(Linked(g, a, b).keys)
  {
  }

  lemma {:induction false} KeysDistinct(es: seq<Edge>)
    ensures Distinct(Adjacency(es).keys)
  {
    if es != [] {
      var front, e := es[..|es| - 1], es[|es| - 1];
      KeysDistinct(front);
      KeysAreTouched(front);
      LinkedDistinct(Adjacency(front), e.marketA, e.marketB);
      LinkedKeys(Adjacency(front), e.marketA, e.marketB);
      LinkedDistinct(Linked(Adjacency(front), e.marketA, e.marketB), e.marketB, e.marketA);
    }
  }

  lemma KeysCount(es: seq<Edge>)
    ensures |Adjacency(es).keys| == |Touched(es)|
  {
    KeysAreTouched(es);
    KeysDistinct(es);
    DistinctCount(Adjacency(es).keys);
    assert (set k | k in Adjacency(es).keys) == Touched(es);
  }

  lemma {:induction false} DistinctCount(keys: seq<string>)
    requires Distinct(keys)
    ensures |set k | k in keys| == |keys|
  {
    if keys != [] {
      var front, last := keys[..|keys| - 1], keys[|keys| - 1];
      DistinctCount(front);
      assert (set k | k in keys) == (set k | k in front) + {last};
    }
  }

  lemma CoverageBounds(edges: seq<Edge>, marketSet: set<string>)
    ensures |Adjacency(Filter(Known(marketSet), edges)).keys| == |Touched(Filter(Known(marketSet), edges))|
    ensures |Touched(Filter(Known(marketSet), edges))| <= |marketSet|
  {
    KeysCount(Filter(Known(marketSet), edges));
    FilterMembers(Known(marketSet), edges);
    SubsetSize(Touched(Filter(Known(marketSet), edges)), marketSet);
  }

  lemma {:induction false} KnownKeepsAll(markets: set<string>, es: seq<Edge>)
    requires forall i :: 0 <= i < |es| ==> Known(markets)(es[i])
    ensures Filter(Known(markets), es) == es
  {
    if es != [] {
      KnownKeepsAll(markets, es[..|es| - 1]);
      assert es == es[..|es| - 1] + [es[|es| - 1]];
    }
  }

  /** The separate count agrees with the number of cohorts. */
  lemma QualityMatchesCohorts(markets: set<string>, es: seq<Edge>)
    requires Simple(es) && Touched(es) <= markets && "" !in markets
    ensures |Components(Filter(Known(markets), es))| == |CohortsFound(es)|
  {
    forall i | 0 <= i < |es|
      ensures Known(markets)(es[i])
    {
      assert es[i].marketA in Touched(es) && es[i].marketB in Touched(es);
    }
    KnownKeepsAll(markets, es);
    CohortsAreComponents(es);
    CountIsSetSize(MarketSets(CohortsFound(es)));
  }
}

/** The order in which the cohorts are handed on. */
module CohortOrder {
  import opened StableSort
  import opened Names
  import opened Dependency
  import opened MarketGraph
  import opened Cohorts

  lemma {:induction false} LeastExists(names: set<string>, order: NameOrder) returns (least: string)
    requires names != {}
    ensures least in names && forall n :: n in names && n != least ==> order(least, n)
    decreases |names|
  {
    least :| least in names;
    var rest := names - {least};
    if rest != {} {
      var other := LeastExists(rest, order);
      assert TotalOrder(order);
      if order(other, least) {
        least := other;
      }
    }
  }

  function Least(names: set<string>, order: NameOrder): (least: string)
    requires names != {}
    ensures least in names && forall n :: n in names && n != least ==> order(least, n)
  {
    assert TotalOrder(order);
    assert exists n :: n in names && forall m :: m in names && m != n ==> order(n, m) by {
      var n := LeastExists(names, order);
    }
    var n :| n in names && forall m :: m in names && m != n ==> order(n, m);
    n
  }

  /** A component's ids in order. */
  function SortedIds(names: set<string>, order: NameOrder): seq<string>
    decreases |names|
  {
    if names == {} then []
    else
      var first := Least(names, order);
      [first] + SortedIds(names - {first}, order)
  }

  lemma {:induction false} IdsAreSorted(names: set<string>, order: NameOrder)
    ensures forall id :: id in SortedIds(names, order) <==> id in names
    ensures |SortedIds(names, order)| == |names|
    ensures var ids := SortedIds(names, order); forall i, j :: 0 <= i < j < |ids| ==> order(ids[i], ids[j])
    decreases |names|
  {
    if names != {} {
      var first := Least(names, order);
      var rest := SortedIds(names - {first}, order);
      IdsAreSorted(names - {first}, order);
      forall j | 0 <= j < |rest|
        ensures order(first, rest[j])
      {
        assert rest[j] in rest;
      }
    }
  }

  function JoinedIds(ids: seq<string>): string {
    if ids == [] then "" else if |ids| == 1 then ids[0] else ids[0] + "|" + JoinedIds(ids[1..])
  }

  /** Denser first, then more edges, then more markets, then by the joined ids. */
  predicate Precedes(a: Cohort, b: Cohort, order: NameOrder) {
    if a.density != b.density then a.density > b.density
    else if a.edgeCount != b.edgeCount then a.edgeCount > b.edgeCount
    else if |a.markets| != |b.markets| then |a.markets| > |b.markets|
    else order(JoinedIds(SortedIds(a.markets, order)), JoinedIds(SortedIds(b.markets, order)))
  }

  ghost predicate InOrder(cohorts: seq<Cohort>, order: NameOrder) {
    forall i, j :: 0 <= i < j < |cohorts| ==> !Precedes(cohorts[j], cohorts[i], order)
  }

  lemma PrecedesIsWeakOrder(a: Cohort, b: Cohort, c: Cohort, order: NameOrder)
    ensures Precedes(a, b, order) ==> !Precedes(b, a, order)
    ensures !Precedes(b, a, order) && !Precedes(c, b, order) ==> !Precedes(c, a, order)
  {
    hide SortedIds, JoinedIds;
    assert TotalOrder(order);
  }

  /** Places a cohort behind all it does not precede. */
  function Placed(k: Cohort, cohorts: seq<Cohort>, order: NameOrder): seq<Cohort> {
    if cohorts == [] then [k]
    else if !Precedes(k, cohorts[|cohorts| - 1], order) then cohorts + [k]
    else Placed(k, cohorts[..|cohorts| - 1], order) + [cohorts[|cohorts| - 1]]
  }

  /** The runtime's stable sort. */
  function Ordered(cohorts: seq<Cohort>, order: NameOrder): seq<Cohort> {
    if cohorts == [] then [] else Placed(cohorts[|cohorts| - 1], Ordered(cohorts[..|cohorts| - 1], order), order)
  }

  lemma {:induction false} PlacedKeeps(k: Cohort, cohorts: seq<Cohort>, order: NameOrder)
    ensures multiset(Placed(k, cohorts, order)) == multiset(cohorts) + multiset{k}
  {
    hide Precedes;
    if cohorts != [] {
      PlacedKeeps(k, cohorts[..|cohorts| - 1], order);
      assert cohorts == cohorts[..|cohorts| - 1] + [cohorts[|cohorts| - 1]];
    }
  }

  lemma {:induction false} PlacedInOrder(k: Cohort, cohorts: seq<Cohort>, order: NameOrder)
    requires InOrder(cohorts, order)
    ensures InOrder(Placed(k, cohorts, order), order)
  {
    hide Precedes;
    if cohorts != [] {
      var front, last := cohorts[..|cohorts| - 1], cohorts[|cohorts| - 1];
      if Precedes(k, last, order) {
        PlacedInOrder(k, front, order);
        PlacedKeeps(k, front, order);
        var r := Placed(k, front, order);
        forall i | 0 <= i < |r|
          ensures !Precedes(last, r[i], order)
        {
          assert r[i] in multiset(r);
          if r[i] == k {
            PrecedesIsWeakOrder(k, last, k, order);
          } else {
            assert r[i] in multiset(front);
          }
        }
      } else {
        forall i | 0 <= i < |cohorts|
          ensures !Precedes(k, cohorts[i], order)
        {
          PrecedesIsWeakOrder(cohorts[i], last, k, order);
        }
      }
    }
  }

  /** The result is in order and is the cohorts given, each as often. */
  lemma {:induction false} OrderedIs(cohorts: seq<Cohort>, order: NameOrder)
    ensures InOrder(Ordered(cohorts, order), order)
    ensures multiset(Ordered(cohorts, order)) == multiset(cohorts)
  {
    hide Precedes, Placed;
    if cohorts != [] {
      var front, last := cohorts[..|cohorts| - 1], cohorts[|cohorts| - 1];
      OrderedIs(front, order);
      PlacedInOrder(last, Ordered(front, order), order);
      PlacedKeeps(last, Ordered(front, order), order);
      assert cohorts == front + [last];
    }
  }

  /** Any two different cohorts are told apart by the comparison. */
  ghost predicate Comparable(cohorts: seq<Cohort>, order: NameOrder) {
    forall a, b :: a in cohorts && b in cohorts && a != b ==> Precedes(a, b, order) || Precedes(b, a, order)
  }

  lemma LastIsLast(a: seq<Cohort>, b: seq<Cohort>, order: NameOrder)
    requires InOrder(a, order) && InOrder(b, order) && multiset(a) == multiset(b) && Comparable(a, order)
    requires a != [] && b != []
    ensures a[|a| - 1] == b[|b| - 1]
  {
    hide Precedes;
    var x, y := a[|a| - 1], b[|b| - 1];
    assert x in multiset(b) && y in multiset(a);
    var i :| 0 <= i < |b| && b[i] == x;
    var j :| 0 <= j < |a| && a[j] == y;
    assert !Precedes(y, x, order) || i == |b| - 1;
    assert !Precedes(x, y, order) || j == |a| - 1;
  }

  lemma FrontOf(a: seq<Cohort>, order: NameOrder)
    requires a != [] && InOrder(a, order) && Comparable(a, order)
    ensures InOrder(a[..|a| - 1], order) && Comparable(a[..|a| - 1], order)
    ensures multiset(a[..|a| - 1]) == multiset(a) - multiset{a[|a| - 1]}
  {
    hide Precedes;
    assert a == a[..|a| - 1] + [a[|a| - 1]];
  }

  lemma ComparableToo(a: seq<Cohort>, b: seq<Cohort>, order: NameOrder)
    requires Comparable(a, order) && multiset(a) == multiset(b)
    ensures Comparable(b, order) && |a| == |b|
  {
    hide Precedes;
    assert |multiset(a)| == |multiset(b)|;
    forall k | k in b
      ensures k in a
    {
      assert k in multiset(b);
    }
  }

  lemma {:induction false} InOrderIsDetermined(a: seq<Cohort>, b: seq<Cohort>, order: NameOrder)
    requires InOrder(a, order) && InOrder(b, order) && multiset(a) == multiset(b) && Comparable(a, order)
    ensures a == b
  {
    hide InOrder, Comparable;
    ComparableToo(a, b, order);
    if a != [] {
      LastIsLast(a, b, order);
      FrontOf(a, order);
      FrontOf(b, order);
      InOrderIsDetermined(a[..|a| - 1], b[..|b| - 1], order);
      assert a == a[..|a| - 1] + [a[|a| - 1]] && b == b[..|b| - 1] + [b[|b| - 1]];
    }
  }

  // ------------------------------------------------------------------ when cohorts can be told apart

  predicate NoBar(s: string) {
    '|' !in s
  }

  function FirstBar(s: string): nat {
    if s == "" || s[0] == '|' then 0 else 1 + FirstBar(s[1..])
  }

  lemma {:induction false} FirstBarIs(id: string, rest: string)
    requires NoBar(id)
    ensures FirstBar(id + "|" + rest) == |id|
  {
    if id == "" {
      assert (id + "|" + rest)[0] == '|';
    } else {
      assert (id + "|" + rest)[1..] == id[1..] + "|" + rest;
      FirstBarIs(id[1..], rest);
    }
  }

  lemma {:induction false} JoinedIsInjective(a: seq<string>, b: seq<string>)
    requires |a| == |b| && JoinedIds(a) == JoinedIds(b)
    requires forall i :: 0 <= i < |a| ==> NoBar(a[i]) && NoBar(b[i])
    ensures a == b
  {
    if |a| > 1 {
      FirstBarIs(a[0], JoinedIds(a[1..]));
      FirstBarIs(b[0], JoinedIds(b[1..]));
      assert a[0] == JoinedIds(a)[..|a[0]|] && b[0] == JoinedIds(b)[..|b[0]|];
      assert JoinedIds(a[1..]) == JoinedIds(a)[|a[0]| + 1..] && JoinedIds(b[1..]) == JoinedIds(b)[|b[0]| + 1..];
      JoinedIsInjective(a[1..], b[1..]);
      assert a == [a[0]] + a[1..] && b == [b[0]] + b[1..];
    }
  }

  lemma JoinedTellsApart(a: set<string>, b: set<string>, order: NameOrder)
    requires |a| == |b| && forall id :: id in a + b ==> NoBar(id)
    requires JoinedIds(SortedIds(a, order)) == JoinedIds(SortedIds(b, order))
    ensures a == b
  {
    IdsAreSorted(a, order);
    IdsAreSorted(b, order);
    var x, y := SortedIds(a, order), SortedIds(b, order);
    forall i | 0 <= i < |x|
      ensures NoBar(x[i]) && NoBar(y[i])
    {
      assert x[i] in x && y[i] in y;
    }
    JoinedIsInjective(x, y);
    assert forall id :: id in a <==> id in x;
    assert forall id :: id in b <==> id in y;
  }

  /** No two cohorts have the same markets, and no id holds the character that joins ids. */
  ghost predicate ToldApart(cohorts: seq<Cohort>) {
    && (forall a, b :: a in cohorts && b in cohorts && a != b ==> a.markets != b.markets)
    && (forall a, id :: a in cohorts && id in a.markets ==> NoBar(id))
  }

  lemma ToldApartAreComparable(cohorts: seq<Cohort>, order: NameOrder)
    requires ToldApart(cohorts)
    ensures Comparable(cohorts, order)
  {
    forall a, b | a in cohorts && b in cohorts && a != b
      ensures Precedes(a, b, order) || Precedes(b, a, order)
    {
      assert TotalOrder(order);
      if |a.markets| == |b.markets|
        && JoinedIds(SortedIds(a.markets, order)) == JoinedIds(SortedIds(b.markets, order)) {
        JoinedTellsApart(a.markets, b.markets, order);
      }
    }
  }

  /** Then the final list depends on which cohorts there are, not on the order they were found in. */
  lemma OrderIsDetermined(a: seq<Cohort>, b: seq<Cohort>, order: NameOrder)
    requires multiset(a) == multiset(b) && ToldApart(a)
    ensures Ordered(a, order) == Ordered(b, order)
  {
    hide InOrder, Comparable, Ordered;
    ToldApartAreComparable(a, order);
    OrderedIs(a, order);
    OrderedIs(b, order);
    ComparableToo(a, Ordered(a, order), order);
    InOrderIsDetermined(Ordered(a, order), Ordered(b, order), order);
  }

  // ------------------------------------------------------------------ the cohorts in their final order

  lemma {:induction false} CountOne<T>(s: seq<T>)
    ensures (forall i, j :: 0 <= i < j < |s| ==> s[i] != s[j]) <==> forall x :: multiset(s)[x] <= 1
  {
    if s != [] {
      var front, last := s[..|s| - 1], s[|s| - 1];
      assert s == front + [last];
      CountOne(front);
      if forall x :: multiset(s)[x] <= 1 {
        forall x
          ensures multiset(front)[x] <= 1
        {
          assert multiset(front)[x] <= multiset(s)[x];
        }
        forall i | 0 <= i < |front|
          ensures front[i] != last
        {
          assert front[i] in multiset(front);
          assert multiset(s)[last] == multiset(front)[last] + 1;
        }
      }
    }
  }

  lemma ReorderedIsExact(es: seq<Edge>, found: seq<Cohort>, cohorts: seq<Cohort>)
    requires Exact(es, MarketSets(found)) && multiset(found) == multiset(cohorts)
    ensures Exact(es, MarketSets(cohorts))
  {
    CountOne(found);
    CountOne(cohorts);
    SameMembers(found, cohorts);
    var a, b := MarketSets(found), MarketSets(cohorts);
    forall i, j | 0 <= i < j < |b|
      ensures b[i] != b[j]
    {
      assert cohorts[i] in found && cohorts[j] in found;
      var p :| 0 <= p < |found| && found[p] == cohorts[i];
      var q :| 0 <= q < |found| && found[q] == cohorts[j];
      assert a[p] != a[q];
    }
    forall c
      ensures c in a <==> c in b
    {
      if c in a {
        var i :| 0 <= i < |a| && a[i] == c;
        assert found[i] in cohorts;
      }
      if c in b {
        var i :| 0 <= i < |b| && b[i] == c;
        assert cohorts[i] in found;
      }
    }
    assert (set c | c in a) == set c | c in b;
  }

  lemma SameMembers<T>(a: seq<T>, b: seq<T>)
    requires multiset(a) == multiset(b)
    ensures forall x :: x in a <==> x in b
  {
    forall x
      ensures x in a <==> x in b
    {
      assert x in a <==> x in multiset(a);
      assert x in b <==> x in multiset(b);
    }
  }

  /** In their final order they still are exactly the components within their bounds. */
  lemma OrderedCohortsAreComponents(es: seq<Edge>, order: NameOrder)
    requires Simple(es) && "" !in Touched(es)
    ensures var cohorts := Ordered(CohortsFound(es), order);
      Exact(es, MarketSets(cohorts)) && InOrder(cohorts, order) && forall k :: k in cohorts ==> WellSized(k)
  {
    hide Simple, Exact, WellSized, CohortsFound, Ordered, InOrder, MarketSets;
    var found := CohortsFound(es);
    CohortsAreComponents(es);
    OrderedIs(found, order);
    ReorderedIsExact(es, found, Ordered(found, order));
    SameMembers(found, Ordered(found, order));
  }

  // ------------------------------------------------------------------ the order of the edges does not matter

  lemma {:induction false} CountKept<T>(p: T -> bool, a: seq<T>, b: seq<T>)
    requires multiset(a) == multiset(b)
    ensures |Filter(p, a)| == |Filter(p, b)|
  {
    assert |multiset(a)| == |multiset(b)|;
    if a != [] {
      var front, last := a[..|a| - 1], a[|a| - 1];
      assert last in multiset(b);
      var i :| 0 <= i < |b| && b[i] == last;
      assert a == front + [last];
      assert b == b[..i] + [last] + b[i + 1..];
      assert multiset(b[..i] + b[i + 1..]) == multiset(b) - multiset{last};
      CountKept(p, front, b[..i] + b[i + 1..]);
      FilterAppend(p, b[..i], b[i + 1..]);
      FilterAppend(p, b[..i] + [last], b[i + 1..]);
      FilterPush(p, b[..i], last);
    }
  }

  lemma SimpleToo(es: seq<Edge>, fs: seq<Edge>)
    requires Simple(es) && multiset(es) == multiset(fs)
    ensures Simple(fs) && Touched(fs) == Touched(es)
  {
    forall i, j | 0 <= i < j < |es|
      ensures es[i] != es[j]
    {
      assert EndsOf(es[i]) != EndsOf(es[j]);
    }
    CountOne(es);
    CountOne(fs);
    SameMembers(es, fs);
    forall i | 0 <= i < |fs|
      ensures fs[i].marketA != fs[i].marketB
    {
      assert fs[i] in es;
    }
    forall i, j | 0 <= i < j < |fs|
      ensures EndsOf(fs[i]) != EndsOf(fs[j])
    {
      assert fs[i] in es && fs[j] in es;
      var p :| 0 <= p < |es| && es[p] == fs[i];
      var q :| 0 <= q < |es| && es[q] == fs[j];
      assert p != q;
    }
  }

  lemma {:induction false} SameWalks(es: seq<Edge>, fs: seq<Edge>, p: seq<string>)
    requires forall e :: e in es ==> e in fs
    ensures Walk(es, p) ==> Walk(fs, p)
  {
    if Walk(es, p) && |p| > 1 {
      SameWalks(es, fs, p[..|p| - 1]);
      var e :| e in es && Ends(e, p[|p| - 2], p[|p| - 1]);
      assert e in fs;
    }
  }

  lemma ComponentInside(es: seq<Edge>, fs: seq<Edge>, m: string)
    requires (forall e :: e in es ==> e in fs) && Touched(es) == Touched(fs)
    ensures ComponentOf(es, m) <= ComponentOf(fs, m)
  {
    forall v | v in ComponentOf(es, m)
      ensures v in ComponentOf(fs, m)
    {
      var p :| WalkFrom(es, m, v, p);
      SameWalks(es, fs, p);
      assert WalkFrom(fs, m, v, p);
    }
  }

  lemma SameComponents(es: seq<Edge>, fs: seq<Edge>)
    requires (forall e :: e in es <==> e in fs) && Touched(es) == Touched(fs)
    ensures Components(es) == Components(fs)
  {
    forall m | m in Touched(es)
      ensures ComponentOf(es, m) == ComponentOf(fs, m)
    {
      ComponentInside(es, fs, m);
      ComponentInside(fs, es, m);
    }
  }

  lemma {:induction false} CohortsAre(comps: seq<set<string>>, es: seq<Edge>)
    ensures forall k :: k in CohortsOf(comps, es) <==>
      |k.markets| >= MIN_MARKETS && k.markets in comps && k == CohortOf(k.markets, es)
  {
    hide Density;
    if comps != [] {
      CohortsAre(comps[..|comps| - 1], es);
    }
  }

  /** A cohort is found exactly for each component. */
  lemma FoundAre(es: seq<Edge>)
    requires Simple(es) && "" !in Touched(es)
    ensures forall k :: k in CohortsFound(es) <==> k.markets in Components(es) && k == CohortOf(k.markets, es)
    ensures forall i, j :: 0 <= i < j < |CohortsFound(es)| ==>
      CohortsFound(es)[i].markets != CohortsFound(es)[j].markets
  {
    hide Simple, CohortOf;
    var comps := Search(Adjacency(es), {""}, Adjacency(es).keys, {});
    SearchIsExact(es, {""});
    ExactAreWellSized(es, comps);
    CohortsAre(comps, es);
    CohortsAreComponents(es);
    var sets := MarketSets(CohortsFound(es));
    forall c
      ensures c in comps <==> c in Components(es)
    {
      assert c in (set d | d in comps) <==> c in comps;
    }
    forall i, j | 0 <= i < j < |sets|
      ensures sets[i] != sets[j]
    {
    }
  }

  lemma SameFound(es: seq<Edge>, fs: seq<Edge>)
    requires Simple(es) && "" !in Touched(es) && multiset(es) == multiset(fs)
    ensures multiset(CohortsFound(es)) == multiset(CohortsFound(fs))
  {
    hide Simple, CohortsFound, Components, Touched, Density;
    SimpleToo(es, fs);
    SameMembers(es, fs);
    SameComponents(es, fs);
    FoundAre(es);
    FoundAre(fs);
    var a, b := CohortsFound(es), CohortsFound(fs);
    forall k: Cohort
      ensures CohortOf(k.markets, es) == CohortOf(k.markets, fs)
    {
      CountKept(Inside(k.markets), es, fs);
    }
    CountOne(a);
    CountOne(b);
    forall k
      ensures multiset(a)[k] == multiset(b)[k]
    {
      assert k in a <==> k in b;
      assert k in a <==> k in multiset(a);
      assert k in b <==> k in multiset(b);
    }
  }

  /** The final list depends on which edges there are, not on the order in which they were extracted. */
  lemma EdgeOrderIsIrrelevant(es: seq<Edge>, fs: seq<Edge>, order: NameOrder)
    requires Simple(es) && "" !in Touched(es) && multiset(es) == multiset(fs)
    requires forall id :: id in Touched(es) ==> NoBar(id)
    ensures Ordered(CohortsFound(es), order) == Ordered(CohortsFound(fs), order)
  {
    hide Simple, Touched, CohortsFound, Ordered, CohortOf;
    SameFound(es, fs);
    FoundAre(es);
    var found := CohortsFound(es);
    forall a, b | a in found && b in found && a != b
      ensures a.markets != b.markets
    {
      var i :| 0 <= i < |found| && found[i] == a;
      var j :| 0 <= j < |found| && found[j] == b;
      assert i < j || j < i;
    }
    forall a, id | a in found && id in a.markets
      ensures NoBar(id)
    {
      assert a.markets in Components(es);
      var m :| m in Touched(es) && a.markets == ComponentOf(es, m);
    }
    OrderIsDetermined(found, CohortsFound(fs), order);
  }

  // ------------------------------------------------------------------ what a cohort's numbers mean

  /** The edges with both ends among the markets, by their places. */
  ghost function Within(es: seq<Edge>, markets: set<string>): set<int> {
    set j | 0 <= j < |es| && es[j].marketA in markets && es[j].marketB in markets
  }

  /** Two markets at least, all the edges among them, and their share of all the pairs there are. */
  ghost predicate Measured(k: Cohort, es: seq<Edge>) {
    var n := |k.markets|;
    && n >= 2 && k.edgeCount == |Within(es, k.markets)|
    && k.density * (n * (n - 1)) as real == 2.0 * k.edgeCount as real
  }

  lemma {:induction false} InsideIsWithin(es: seq<Edge>, markets: set<string>)
    ensures |Filter(Inside(markets), es)| == |Within(es, markets)|
  {
    if es != [] {
      var n := |es| - 1;
      var front, last := es[..n], es[n];
      InsideIsWithin(front, markets);
      assert Within(es, markets) == Within(front, markets) + if Inside(markets)(last) then {n} else {};
    }
  }

  lemma ShareOfPairs(edgeCount: nat, n: nat)
    requires n >= 2
    ensures Density(edgeCount, n) * (n * (n - 1)) as real == 2.0 * edgeCount as real
  {
    var pairs := (n * (n - 1)) as real;
    assert n * (n - 1) >= 1;
    var possible := pairs / 2.0;
    var share := edgeCount as real / possible;
    assert share * possible == edgeCount as real;
    assert pairs == 2.0 * possible;
  }

  lemma CohortIsMeasured(k: Cohort, es: seq<Edge>)
    requires k == CohortOf(k.markets, es) && |k.markets| >= 2
    ensures Measured(k, es)
  {
    InsideIsWithin(es, k.markets);
    ShareOfPairs(k.edgeCount, |k.markets|);
    hide Density, Within;
  }

  lemma CohortsAreMeasured(comps: seq<set<string>>, es: seq<Edge>)
    ensures forall k :: k in CohortsOf(comps, es) ==> Measured(k, es)
  {
    hide Measured, CohortOf, CohortsOf;
    CohortsAre(comps, es);
    forall k | k in CohortsOf(comps, es)
      ensures Measured(k, es)
    {
      CohortIsMeasured(k, es);
    }
  }

  /** The ids of a cohort in order, joined by bars. */
  ghost function Text(k: Cohort, order: NameOrder): string {
    JoinedIds(SortedIds(k.markets, order))
  }

  lemma {:induction false} JoinsWithBars(ids: seq<string>, last: string)
    ensures JoinedIds(ids + [last]) == if ids == [] then last else JoinedIds(ids) + "|" + last
  {
    if ids == [] {
      assert [] + [last] == [last];
    } else {
      assert (ids + [last])[1..] == ids[1..] + [last];
      JoinsWithBars(ids[1..], last);
      assert |ids| == 1 ==> ids[1..] == [];
    }
  }

  /** Denser, or as dense with more edges, or with as many more markets, or with as many no later a text. */
  ghost predicate ComesBefore(a: Cohort, b: Cohort, order: NameOrder) {
    || a.density > b.density
    || (a.density == b.density && a.edgeCount > b.edgeCount)
    || (a.density == b.density && a.edgeCount == b.edgeCount && |a.markets| > |b.markets|)
    || (a.density == b.density && a.edgeCount == b.edgeCount && |a.markets| == |b.markets|
        && (Text(a, order) == Text(b, order) || order(Text(a, order), Text(b, order))))
  }

  lemma InOrderIsRanked(cohorts: seq<Cohort>, order: NameOrder)
    requires InOrder(cohorts, order)
    ensures forall i, j :: 0 <= i < j < |cohorts| ==> ComesBefore(cohorts[i], cohorts[j], order)
  {
    forall i, j | 0 <= i < j < |cohorts|
      ensures ComesBefore(cohorts[i], cohorts[j], order)
    {
      assert TotalOrder(order);
      assert !Precedes(cohorts[j], cohorts[i], order);
    }
  }

  // ------------------------------------------------------------------ the code

  method BuildCohorts(markets: seq<Market>, test: RelationTest, order: NameOrder) returns (cohorts: seq<Cohort>)
    ensures cohorts == Ordered(CohortsFound(CohortEdges(markets, test)), order)
    ensures InOrder(cohorts, order) && multiset(cohorts) == multiset(CohortsFound(CohortEdges(markets, test)))
    ensures DistinctIds(markets) && "" !in Ids(markets) ==>
      Exact(CohortEdges(markets, test), MarketSets(cohorts)) && forall k :: k in cohorts ==> WellSized(k)
    ensures forall i, j :: 0 <= i < j < |cohorts| ==> ComesBefore(cohorts[i], cohorts[j], order)
    ensures forall k :: k in cohorts ==> Measured(k, CohortEdges(markets, test))
    ensures forall e :: e in CohortEdges(markets, test) <==> exists a, b :: Links(markets, test, e, a, b)
  {
    forall e
      ensures e in CohortEdges(markets, test) <==> exists a, b :: Links(markets, test, e, a, b)
    {
      CohortEdgesAre(markets, test, e);
    }
    hide Precedes, ComesBefore, Measured;
    var found := FindCohorts(markets, test);
    OrderedIs(found, order);
    if DistinctIds(markets) && "" !in Ids(markets) {
      CohortEdgesAreSimple(markets, test);
      OrderedCohortsAreComponents(CohortEdges(markets, test), order);
    }
    InOrderIsRanked(Ordered(found, order), order);
    SameMembers(found, Ordered(found, order));
    var es := CohortEdges(markets, test);
    CohortsAreMeasured(Search(Adjacency(es), {""}, Adjacency(es).keys, {}), es);
    return Ordered(found, order);
  }
}

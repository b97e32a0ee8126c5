/** When the order in which edges were extracted shows in the final list of cohorts. */
module CohortTies {
  import opened StableSort
  import opened Names
  import opened Dependency
  import opened MarketGraph
  import opened Cohorts
  import opened CohortOrder

  // ------------------------------------------------------------------ the sort is stable

  ghost predicate Comes(cohorts: seq<Cohort>, a: Cohort, b: Cohort) {
    exists i, j :: 0 <= i < j < |cohorts| && cohorts[i] == a && cohorts[j] == b
  }

  lemma ComesPush(cohorts: seq<Cohort>, last: Cohort, a: Cohort, b: Cohort)
    ensures Comes(cohorts + [last], a, b) <==> Comes(cohorts, a, b) || (a in cohorts && b == last)
  {
    var more := cohorts + [last];
    if Comes(more, a, b) {
      var i, j :| 0 <= i < j < |more| && more[i] == a && more[j] == b;
      assert cohorts[i] == a;
      assert j < |cohorts| ==> cohorts[j] == b;
    }
    if Comes(cohorts, a, b) {
      var i, j :| 0 <= i < j < |cohorts| && cohorts[i] == a && cohorts[j] == b;
      assert more[i] == a && more[j] == b;
    }
    if a in cohorts && b == last {
      var i :| 0 <= i < |cohorts| && cohorts[i] == a;
      assert more[i] == a && more[|cohorts|] == b;
    }
  }

  lemma PlacedMembers(k: Cohort, cohorts: seq<Cohort>, order: NameOrder)
    ensures forall x :: x in Placed(k, cohorts, order) <==> x == k || x in cohorts
  {
    hide Precedes;
    PlacedKeeps(k, cohorts, order);
    forall x
      ensures x in Placed(k, cohorts, order) <==> x == k || x in cohorts
    {
      assert x in Placed(k, cohorts, order) <==> x in multiset(Placed(k, cohorts, order));
      assert x in cohorts <==> x in multiset(cohorts);
    }
  }

  lemma {:induction false} PlacedComes(k: Cohort, cohorts: seq<Cohort>, order: NameOrder, a: Cohort, b: Cohort)
    requires Comes(cohorts, a, b)
    ensures Comes(Placed(k, cohorts, order), a, b)
  {
    assert cohorts != [];
    hide Precedes, Comes;
    var front, last := cohorts[..|cohorts| - 1], cohorts[|cohorts| - 1];
    assert cohorts == front + [last];
    ComesPush(front, last, a, b);
    ComesPush(cohorts, k, a, b);
    ComesPush(Placed(k, front, order), last, a, b);
    PlacedMembers(k, front, order);
    if Comes(front, a, b) {
      PlacedComes(k, front, order, a, b);
    }
  }

  /** A cohort is placed behind all it does not precede. */
  lemma {:induction false} PlacedBehind(k: Cohort, cohorts: seq<Cohort>, order: NameOrder, a: Cohort)
    requires a in cohorts && !Precedes(k, a, order)
    ensures Comes(Placed(k, cohorts, order), a, k)
  {
    hide Precedes, Comes;
    var front, last := cohorts[..|cohorts| - 1], cohorts[|cohorts| - 1];
    ComesPush(cohorts, k, a, k);
    ComesPush(Placed(k, front, order), last, a, k);
    if Precedes(k, last, order) {
      PlacedBehind(k, front, order, a);
    }
  }

  lemma {:induction false} FirstStaysFirst(cohorts: seq<Cohort>, order: NameOrder, b: Cohort)
    requires cohorts != [] && b in cohorts[1..] && !Precedes(b, cohorts[0], order)
    ensures Comes(Ordered(cohorts, order), cohorts[0], b)
  {
    hide Precedes, Comes, Placed, InOrder;
    var front, last := cohorts[..|cohorts| - 1], cohorts[|cohorts| - 1];
    OrderedIs(front, order);
    SameMembers(front, Ordered(front, order));
    assert front[0] == cohorts[0];
    if b == last {
      PlacedBehind(last, Ordered(front, order), order, cohorts[0]);
    } else {
      assert cohorts[1..] == front[1..] + [last];
      FirstStaysFirst(front, order, b);
      PlacedComes(last, Ordered(front, order), order, cohorts[0], b);
    }
  }

  // ------------------------------------------------------------------ the first edge is found first

  lemma {:induction false} FirstKey(es: seq<Edge>)
    requires es != []
    ensures Adjacency(es).keys != [] && Adjacency(es).keys[0] == es[0].marketA
  {
    KeysAreTouched(es[..|es| - 1]);
    if |es| > 1 {
      FirstKey(es[..|es| - 1]);
    }
  }

  lemma FirstFound(es: seq<Edge>)
    requires es != [] && Simple(es) && "" !in Touched(es)
    ensures CohortsFound(es) != [] && CohortsFound(es)[0].markets == ComponentOf(es, es[0].marketA)
  {
    hide Simple, Adjacency, CohortOf;
    var g := Adjacency(es);
    var comps := Search(g, {""}, g.keys, {});
    FirstKey(es);
    assert es[0] in es && es[0].marketA in Touched(es);
    ReachIsComponent(es, {}, {""}, es[0].marketA);
    SearchIsExact(es, {""});
    ExactAreWellSized(es, comps);
    NothingDropped(comps, es);
    assert comps[0] == Reach(g, {}, {""}, g.keys[0]);
    assert MarketSets(CohortsFound(es))[0] == comps[0];
  }

  /** The same edges with this one first. */
  function Fronted(es: seq<Edge>, k: nat): (r: seq<Edge>)
    requires k < |es|
    ensures multiset(r) == multiset(es) && r[0] == es[k]
  {
    assert es == es[..k] + [es[k]] + es[k + 1..];
    [es[k]] + es[..k] + es[k + 1..]
  }

  lemma EdgeOf(es: seq<Edge>, m: string) returns (k: nat)
    requires m in Touched(es)
    ensures k < |es| && ComponentOf(es, es[k].marketA) == ComponentOf(es, m)
  {
    var e := TouchedHasNeighbor(es, m);
    k :| 0 <= k < |es| && es[k] == e;
    ConnectedSelf(es, m);
    if e.marketA != m {
      assert Ends(e, m, e.marketA);
      ConnectedStep(es, m, m, e.marketA);
    }
    SameComponent(es, m, e.marketA);
  }

  /** Each cohort can be made the first one found. */
  lemma CanComeFirst(es: seq<Edge>, a: Cohort) returns (fs: seq<Edge>)
    requires Simple(es) && "" !in Touched(es) && a in CohortsFound(es)
    ensures multiset(fs) == multiset(es) && CohortsFound(fs) != [] && CohortsFound(fs)[0] == a
  {
    hide Simple, CohortsFound, CohortOf;
    FoundAre(es);
    var m :| m in Touched(es) && a.markets == ComponentOf(es, m);
    hide ComponentOf, Touched, Components;
    var k := EdgeOf(es, m);
    fs := Fronted(es, k);
    SimpleToo(es, fs);
    FirstFound(fs);
    SameMembers(es, fs);
    ComponentInside(es, fs, es[k].marketA);
    ComponentInside(fs, es, es[k].marketA);
    SameFound(es, fs);
    SameMembers(CohortsFound(es), CohortsFound(fs));
    assert CohortsFound(fs)[0] in CohortsFound(fs);
  }

  // ------------------------------------------------------------------ exactly when the order shows

  /** However the same edges are ordered, the final list is the same. */
  ghost predicate OrderNeverShows(es: seq<Edge>, order: NameOrder) {
    forall fs :: multiset(fs) == multiset(es) ==> Ordered(CohortsFound(fs), order) == Ordered(CohortsFound(es), order)
  }

  lemma NotBothWays(cohorts: seq<Cohort>, a: Cohort, b: Cohort)
    requires forall i, j :: 0 <= i < j < |cohorts| ==> cohorts[i] != cohorts[j]
    requires Comes(cohorts, a, b)
    ensures !Comes(cohorts, b, a)
  {
  }

  lemma FoundAreDistinct(es: seq<Edge>, order: NameOrder)
    requires Simple(es) && "" !in Touched(es)
    ensures var cohorts := Ordered(CohortsFound(es), order);
      forall i, j :: 0 <= i < j < |cohorts| ==> cohorts[i] != cohorts[j]
  {
    hide Simple, CohortsFound, Ordered, InOrder, CohortOf;
    FoundAre(es);
    OrderedIs(CohortsFound(es), order);
    CountOne(CohortsFound(es));
    CountOne(Ordered(CohortsFound(es), order));
  }

  /** Two cohorts that tie come in the order they were found in. */
  lemma TiesShow(es: seq<Edge>, order: NameOrder, a: Cohort, b: Cohort) returns (fs: seq<Edge>)
    requires Simple(es) && "" !in Touched(es)
    requires a in CohortsFound(es) && b in CohortsFound(es) && a != b && !Precedes(b, a, order)
    ensures multiset(fs) == multiset(es) && Comes(Ordered(CohortsFound(fs), order), a, b)
  {
    hide Simple, CohortsFound, Ordered, Precedes, Comes;
    fs := CanComeFirst(es, a);
    SameFound(es, fs);
    var found := CohortsFound(fs);
    SameMembers(CohortsFound(es), found);
    assert found == [found[0]] + found[1..];
    FirstStaysFirst(found, order, b);
  }

  /**
   * The order in which edges were extracted never shows in the final list if and only if any two
   * cohorts are told apart by the comparison.
   */
  lemma OrderNeverShowsIff(es: seq<Edge>, order: NameOrder)
    requires Simple(es) && "" !in Touched(es)
    ensures OrderNeverShows(es, order) <==> Comparable(CohortsFound(es), order)
  {
    hide Simple, CohortsFound, Ordered, InOrder, Precedes, Comes;
    var found := CohortsFound(es);
    OrderedIs(found, order);
    if Comparable(found, order) {
      forall fs | multiset(fs) == multiset(es)
        ensures Ordered(CohortsFound(fs), order) == Ordered(found, order)
      {
        SameFound(es, fs);
        OrderedIs(CohortsFound(fs), order);
        ComparableToo(found, Ordered(found, order), order);
        InOrderIsDetermined(Ordered(found, order), Ordered(CohortsFound(fs), order), order);
      }
    } else {
      var a, b :| a in found && b in found && a != b && !Precedes(a, b, order) && !Precedes(b, a, order);
      var fs := TiesShow(es, order, a, b);
      var gs := TiesShow(es, order, b, a);
      FoundAreDistinct(es, order);
      if OrderNeverShows(es, order) {
        NotBothWays(Ordered(found, order), a, b);
      }
    }
  }

  // ------------------------------------------------------------------ such an input

  lemma {:induction false} WalkStays(es: seq<Edge>, inside: set<string>, p: seq<string>)
    requires Closed(es, inside) && Walk(es, p) && p[0] in inside
    ensures p[|p| - 1] in inside
    decreases |p|
  {
    if |p| > 1 {
      WalkStays(es, inside, p[..|p| - 1]);
    }
  }

  /** Two markets joined by one edge, and by nothing to others. */
  lemma PairIsComponent(es: seq<Edge>, e: Edge)
    requires e in es && Closed(es, {e.marketA, e.marketB})
    ensures {e.marketA, e.marketB} in Components(es)
  {
    var inside := {e.marketA, e.marketB};
    var c := ComponentOf(es, e.marketA);
    ConnectedSelf(es, e.marketA);
    assert Ends(e, e.marketA, e.marketB);
    ConnectedStep(es, e.marketA, e.marketA, e.marketB);
    forall v | v in c
      ensures v in inside
    {
      var p :| WalkFrom(es, e.marketA, v, p);
      WalkStays(es, inside, p);
    }
    assert c == inside;
    assert e.marketA in Touched(es);
  }

  lemma PairIsSorted(a: string, b: string)
    requires TotalOrder(Lexical) && Lexical(a, b)
    ensures SortedIds({a, b}, Lexical) == [a, b]
  {
    IdsAreSorted({a, b}, Lexical);
    var ids := SortedIds({a, b}, Lexical);
    assert |{a, b}| == 2;
    assert ids[0] in ids && ids[1] in ids;
  }

  const LEFT: Edge := Edge("a", "b|c", MutualExclusive, 0.9)
  const RIGHT: Edge := Edge("a|b", "c", MutualExclusive, 0.9)

  /** The ids of both pairs join to the same text, so the order of these two edges shows. */
  lemma BarsShowOrder()
    ensures Simple([LEFT, RIGHT]) && "" !in Touched([LEFT, RIGHT]) && TotalOrder(Lexical)
    ensures !OrderNeverShows([LEFT, RIGHT], Lexical)
  {
    hide Simple, OrderNeverShows, CohortsFound, CohortOf, Precedes, Touched, TotalOrder;
    LexicalIsTotal();
    var es := [LEFT, RIGHT];
    assert es[0] == LEFT && es[1] == RIGHT;
    TwoPairs(es);
    TwoPairsTie(es);
    OrderNeverShowsIff(es, Lexical);
  }

  lemma TwoPairs(es: seq<Edge>)
    requires es == [LEFT, RIGHT]
    ensures Simple(es) && "" !in Touched(es)
    ensures CohortOf({"a", "b|c"}, es) in CohortsFound(es) && CohortOf({"a|b", "c"}, es) in CohortsFound(es)
  {
    assert "a" in EndsOf(LEFT) && "a" !in EndsOf(RIGHT);
    assert Simple(es);
    assert Touched(es) == {"a", "b|c", "a|b", "c"};
    assert Closed(es, {"a", "b|c"}) && Closed(es, {"a|b", "c"});
    assert LEFT in es && RIGHT in es;
    PairIsComponent(es, LEFT);
    PairIsComponent(es, RIGHT);
    FoundAre(es);
  }

  lemma TwoPairsTie(es: seq<Edge>)
    requires es == [LEFT, RIGHT] && TotalOrder(Lexical)
    ensures var a, b := CohortOf({"a", "b|c"}, es), CohortOf({"a|b", "c"}, es);
      a != b && !Precedes(a, b, Lexical) && !Precedes(b, a, Lexical)
  {
    var a, b := CohortOf({"a", "b|c"}, es), CohortOf({"a|b", "c"}, es);
    assert es[..1] == [LEFT] && [LEFT][..0] == [];
    assert |Filter(Inside({"a", "b|c"}), es)| == 1 && |Filter(Inside({"a|b", "c"}), es)| == 1;
    PairIsSorted("a", "b|c");
    PairIsSorted("a|b", "c");
    assert ["a", "b|c"][1..] == ["b|c"] && ["a|b", "c"][1..] == ["c"];
    assert JoinedIds(["a", "b|c"]) == "a|b|c" && JoinedIds(["a|b", "c"]) == "a|b|c";
    assert a.markets != b.markets by {
      assert "a" in a.markets && "a" !in b.markets;
    }
  }
}

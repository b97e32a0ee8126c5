/** The stable ascending sort of the JavaScript runtime, by a numeric key. */
module StableSort {

  predicate Sorted<T>(key: T -> real, s: seq<T>) {
    forall i, j :: 0 <= i < j < |s| ==> key(s[i]) <= key(s[j])
  }

  predicate DistinctKeys<T>(key: T -> real, s: seq<T>) {
    forall i, j :: 0 <= i < j < |s| ==> key(s[i]) != key(s[j])
  }

  /** Places x after every element whose key is not larger than its own. */
  function Insert<T>(key: T -> real, x: T, s: seq<T>): (r: seq<T>)
    ensures |r| == |s| + 1
  {
    if s == [] then [x]
    else if key(s[|s| - 1]) <= key(x) then s + [x]
    else Insert(key, x, s[..|s| - 1]) + [s[|s| - 1]]
  }

  function Sort<T>(key: T -> real, s: seq<T>): (r: seq<T>)
    ensures |r| == |s|
  {
    if s == [] then []
    else Insert(key, s[|s| - 1], Sort(key, s[..|s| - 1]))
  }

  function Filter<T>(p: T -> bool, s: seq<T>): (r: seq<T>)
    ensures |r| <= |s|
  {
    if s == [] then []
    else
      var front := Filter(p, s[..|s| - 1]);
      if p(s[|s| - 1]) then front + [s[|s| - 1]] else front
  }

  /** The element with the largest key, the later one among equals. */
  function Latest<T>(key: T -> real, s: seq<T>): (r: T)
    requires s != []
  {
    var last := s[|s| - 1];
    if |s| == 1 then last
    else
      var earlier := Latest(key, s[..|s| - 1]);
      if key(earlier) <= key(last) then last else earlier
  }

  lemma {:induction false} InsertMembers<T>(key: T -> real, x: T, s: seq<T>)
    ensures x in Insert(key, x, s)
    ensures forall y :: y in s ==> y in Insert(key, x, s)
    ensures forall y :: y in Insert(key, x, s) ==> y == x || y in s
  {
    if s != [] {
      InsertMembers(key, x, s[..|s| - 1]);
    }
  }

  lemma {:induction false} SortMembers<T>(key: T -> real, s: seq<T>)
    ensures forall y :: y in s ==> y in Sort(key, s)
    ensures forall y :: y in Sort(key, s) ==> y in s
  {
    if s != [] {
      SortMembers(key, s[..|s| - 1]);
      InsertMembers(key, s[|s| - 1], Sort(key, s[..|s| - 1]));
    }
  }

  lemma {:induction false} InsertKeepsCounts<T>(key: T -> real, x: T, s: seq<T>)
    ensures multiset(Insert(key, x, s)) == multiset(s) + multiset{x}
  {
    if s != [] {
      InsertKeepsCounts(key, x, s[..|s| - 1]);
      assert s == s[..|s| - 1] + [s[|s| - 1]];
    }
  }

  lemma {:induction false} SortKeepsCounts<T>(key: T -> real, s: seq<T>)
    ensures multiset(Sort(key, s)) == multiset(s)
  {
    if s != [] {
      SortKeepsCounts(key, s[..|s| - 1]);
      InsertKeepsCounts(key, s[|s| - 1], Sort(key, s[..|s| - 1]));
      assert s == s[..|s| - 1] + [s[|s| - 1]];
    }
  }

  lemma {:induction false} InsertSorted<T>(key: T -> real, x: T, s: seq<T>)
    requires Sorted(key, s)
    ensures Sorted(key, Insert(key, x, s))
  {
    if s != [] && key(s[|s| - 1]) > key(x) {
      var front, last := s[..|s| - 1], s[|s| - 1];
      InsertSorted(key, x, front);
      InsertMembers(key, x, front);
      var r := Insert(key, x, front);
      forall i | 0 <= i < |r|
        ensures key(r[i]) <= key(last)
      {
        assert r[i] in r;
      }
    }
  }

  lemma {:induction false} SortIsSorted<T>(key: T -> real, s: seq<T>)
    ensures Sorted(key, Sort(key, s))
  {
    if s != [] {
      SortIsSorted(key, s[..|s| - 1]);
      InsertSorted(key, s[|s| - 1], Sort(key, s[..|s| - 1]));
    }
  }

  lemma {:induction false} SortOfSorted<T>(key: T -> real, s: seq<T>)
    requires Sorted(key, s)
    ensures Sort(key, s) == s
  {
    if s != [] {
      var front, last := s[..|s| - 1], s[|s| - 1];
      SortOfSorted(key, front);
      assert front != [] ==> key(front[|front| - 1]) <= key(last);
      assert s == front + [last];
    }
  }

  lemma {:induction false} FilterMembers<T>(p: T -> bool, s: seq<T>)
    ensures forall y :: y in Filter(p, s) ==> y in s && p(y)
    ensures forall y :: y in s && p(y) ==> y in Filter(p, s)
  {
    if s != [] {
      FilterMembers(p, s[..|s| - 1]);
    }
  }

  lemma {:induction false} FilterAppend<T>(p: T -> bool, a: seq<T>, b: seq<T>)
    ensures Filter(p, a + b) == Filter(p, a) + Filter(p, b)
  {
    if b == [] {
      assert a + b == a;
    } else {
      assert (a + b)[..|a + b| - 1] == a + b[..|b| - 1];
      FilterAppend(p, a, b[..|b| - 1]);
    }
  }

  lemma {:induction false} FilterPush<T>(p: T -> bool, s: seq<T>, x: T)
    ensures Filter(p, s + [x]) == if p(x) then Filter(p, s) + [x] else Filter(p, s)
  {
    assert (s + [x])[..|s|] == s;
  }

  lemma {:induction false} InsertPush<T>(key: T -> real, x: T, s: seq<T>, last: T)
    requires key(last) > key(x)
    ensures Insert(key, x, s + [last]) == Insert(key, x, s) + [last]
  {
    assert (s + [last])[..|s|] == s;
  }

  lemma {:induction false} FilterInsert<T>(key: T -> real, p: T -> bool, x: T, s: seq<T>)
    requires Sorted(key, s)
    ensures Filter(p, Insert(key, x, s)) == if p(x) then Insert(key, x, Filter(p, s)) else Filter(p, s)
  {
    if s == [] {
      FilterPush(p, [], x);
    } else {
      var front, last := s[..|s| - 1], s[|s| - 1];
      if key(last) <= key(x) {
        FilterPush(p, s, x);
        FilterMembers(p, s);
        var kept := Filter(p, s);
        if kept != [] {
          assert kept[|kept| - 1] in s;
        }
      } else {
        FilterInsert(key, p, x, front);
        FilterPush(p, Insert(key, x, front), last);
        if p(x) && p(last) {
          InsertPush(key, x, Filter(p, front), last);
        }
      }
    }
  }

  /** Stability: sorting commutes with picking out any kind of element. */
  lemma {:induction false} FilterSort<T>(key: T -> real, p: T -> bool, s: seq<T>)
    ensures Filter(p, Sort(key, s)) == Sort(key, Filter(p, s))
  {
    if s != [] {
      var front, last := s[..|s| - 1], s[|s| - 1];
      FilterSort(key, p, front);
      SortIsSorted(key, front);
      FilterInsert(key, p, last, Sort(key, front));
      if p(last) {
        var kept := Filter(p, front);
        assert (kept + [last])[..|kept|] == kept;
      }
    }
  }

  /** A stable sort ends with the latest element. */
  lemma {:induction false} SortEndsWithLatest<T>(key: T -> real, s: seq<T>)
    requires s != []
    ensures Sort(key, s)[|s| - 1] == Latest(key, s)
  {
    if |s| > 1 {
      SortEndsWithLatest(key, s[..|s| - 1]);
    }
  }

  /** The latest of two lists in a row is the second's, unless the first's is strictly later. */
  lemma {:induction false} LatestAppend<T>(key: T -> real, a: seq<T>, b: seq<T>)
    requires a != [] && b != []
    ensures Latest(key, a + b) == if key(Latest(key, a)) <= key(Latest(key, b)) then Latest(key, b) else Latest(key, a)
  {
    assert (a + b)[..|a + b| - 1] == a + b[..|b| - 1];
    if |b| == 1 {
      assert a + b[..0] == a;
    } else {
      LatestAppend(key, a, b[..|b| - 1]);
    }
  }

  lemma {:induction false} InsertDistinct<T>(key: T -> real, x: T, s: seq<T>)
    requires DistinctKeys(key, s)
    requires forall y :: y in s ==> key(y) != key(x)
    ensures DistinctKeys(key, Insert(key, x, s))
  {
    if s != [] && key(s[|s| - 1]) > key(x) {
      var front, last := s[..|s| - 1], s[|s| - 1];
      InsertDistinct(key, x, front);
      InsertMembers(key, x, front);
      var r := Insert(key, x, front);
      forall i | 0 <= i < |r|
        ensures key(r[i]) != key(last)
      {
        assert r[i] in r;
      }
    }
  }

  lemma {:induction false} SortDistinct<T>(key: T -> real, s: seq<T>)
    requires DistinctKeys(key, s)
    ensures DistinctKeys(key, Sort(key, s))
  {
    if s != [] {
      var front, last := s[..|s| - 1], s[|s| - 1];
      SortDistinct(key, front);
      SortMembers(key, front);
      InsertDistinct(key, last, Sort(key, front));
    }
  }
}

/** The market graph of a list of edges, and the breadth-first search of its components. */
module MarketGraph {
  import opened Dependency

  /** A map from market to neighbours, both in insertion order. */
  datatype Graph = Graph(keys: seq<string>, next: map<string, seq<string>>)

  function Neighbors(g: Graph, a: string): seq<string> {
    if a in g.next then g.next[a] else []
  }

  function Linked(g: Graph, a: string, b: string): Graph {
    var known := Neighbors(g, a);
    Graph(
      if a in g.next then g.keys else g.keys + [a],
      g.next[a := if b in known then known else known + [b]])
  }

  function Adjacency(edges: seq<Edge>): Graph {
    if edges == [] then Graph([], map[])
    else
      var e := edges[|edges| - 1];
      Linked(Linked(Adjacency(edges[..|edges| - 1]), e.marketA, e.marketB), e.marketB, e.marketA)
  }

  predicate Ends(e: Edge, a: string, b: string) {
    (e.marketA == a && e.marketB == b) || (e.marketA == b && e.marketB == a)
  }

  predicate Joined(edges: seq<Edge>, a: string, b: string) {
    exists e :: e in edges && Ends(e, a, b)
  }

  function Touched(edges: seq<Edge>): set<string> {
    (set e | e in edges :: e.marketA) + (set e | e in edges :: e.marketB)
  }

  // ------------------------------------------------------------------ reference definition

  ghost predicate Walk(edges: seq<Edge>, p: seq<string>) {
    p != [] && (|p| > 1 ==> Walk(edges, p[..|p| - 1]) && Joined(edges, p[|p| - 2], p[|p| - 1]))
  }

  ghost predicate WalkFrom(edges: seq<Edge>, a: string, b: string, p: seq<string>) {
    Walk(edges, p) && p[0] == a && p[|p| - 1] == b
  }

  ghost predicate Connected(edges: seq<Edge>, a: string, b: string) {
    exists p :: WalkFrom(edges, a, b, p)
  }

  ghost function ComponentOf(edges: seq<Edge>, m: string): set<string> {
    set v | v in Touched(edges) && Connected(edges, m, v)
  }

  ghost function Components(edges: seq<Edge>): set<set<string>> {
    set m | m in Touched(edges) :: ComponentOf(edges, m)
  }

  // ------------------------------------------------------------------ what the search finds

  predicate Hop(g: Graph, avoid: set<string>, stop: set<string>, u: string, v: string) {
    u !in stop && v in Neighbors(g, u) && v !in avoid
  }

  /** A path that expands no market in `stop` and enters none in `avoid`. */
  ghost predicate Path(g: Graph, avoid: set<string>, stop: set<string>, p: seq<string>) {
    p != [] && (|p| > 1 ==> Path(g, avoid, stop, p[..|p| - 1]) && Hop(g, avoid, stop, p[|p| - 2], p[|p| - 1]))
  }

  ghost predicate PathTo(g: Graph, avoid: set<string>, stop: set<string>, a: string, b: string, p: seq<string>) {
    Path(g, avoid, stop, p) && p[0] == a && p[|p| - 1] == b
  }

  ghost predicate Reaches(g: Graph, avoid: set<string>, stop: set<string>, a: string, b: string) {
    exists p :: PathTo(g, avoid, stop, a, b, p)
  }

  function Nodes(g: Graph): set<string> {
    set a, i | a in g.next && 0 <= i < |g.next[a]| :: g.next[a][i]
  }

  ghost function Reach(g: Graph, avoid: set<string>, stop: set<string>, start: string): set<string> {
    set v | v in Nodes(g) + {start} && Reaches(g, avoid, stop, start, v)
  }

  /** The sets found from the keys in turn, each avoiding what was found before. */
  ghost function Search(g: Graph, stop: set<string>, keys: seq<string>, visited: set<string>): seq<set<string>> {
    if keys == [] then []
    else if keys[0] in visited then Search(g, stop, keys[1..], visited)
    else
      var c := Reach(g, visited, stop, keys[0]);
      [c] + Search(g, stop, keys[1..], visited + c)
  }

  // ------------------------------------------------------------------ adjacency

  lemma LinkedAt(g: Graph, a: string, b: string, u: string, v: string)
    ensures v in Neighbors(Linked(g, a, b), u) <==> (v in Neighbors(g, u) || (u == a && v == b))
  {
  }

  lemma LinkedKeys(g: Graph, a: string, b: string)
    requires forall u :: u in g.keys <==> u in g.next
    ensures forall u :: u in Linked(g, a, b).keys <==> u in Linked(g, a, b).next
    ensures forall u :: u in Linked(g, a, b).keys <==> u in g.keys || u == a
  {
  }

  lemma JoinedPush(edges: seq<Edge>, e: Edge, u: string, v: string)
    ensures Joined(edges + [e], u, v) <==> Joined(edges, u, v) || Ends(e, u, v)
  {
    if Joined(edges, u, v) {
      var f :| f in edges && Ends(f, u, v);
      assert f in edges + [e];
    }
    if Ends(e, u, v) {
      assert e in edges + [e];
    }
  }

  /** The neighbours in the map are exactly the markets that share an edge. */
  lemma {:induction false} NeighborsAreJoined(edges: seq<Edge>, u: string, v: string)
    ensures v in Neighbors(Adjacency(edges), u) <==> Joined(edges, u, v)
  {
    if edges != [] {
      var front, e := edges[..|edges| - 1], edges[|edges| - 1];
      NeighborsAreJoined(front, u, v);
      assert edges == front + [e];
      JoinedPush(front, e, u, v);
      var half := Linked(Adjacency(front), e.marketA, e.marketB);
      LinkedAt(Adjacency(front), e.marketA, e.marketB, u, v);
      LinkedAt(half, e.marketB, e.marketA, u, v);
    }
  }

  lemma {:induction false} KeysAreTouched(edges: seq<Edge>)
    ensures forall u :: u in Adjacency(edges).keys <==> u in Adjacency(edges).next
    ensures forall u :: u in Adjacency(edges).keys <==> u in Touched(edges)
  {
    if edges != [] {
      var front, e := edges[..|edges| - 1], edges[|edges| - 1];
      KeysAreTouched(front);
      assert edges == front + [e];
      assert Touched(edges) == Touched(front) + {e.marketA, e.marketB};
      LinkedKeys(Adjacency(front), e.marketA, e.marketB);
      LinkedKeys(Linked(Adjacency(front), e.marketA, e.marketB), e.marketB, e.marketA);
    }
  }

  lemma NeighborIsNode(g: Graph, u: string, v: string)
    requires v in Neighbors(g, u)
    ensures v in Nodes(g)
  {
    var i :| 0 <= i < |g.next[u]| && g.next[u][i] == v;
  }

  lemma JoinedIsTouched(edges: seq<Edge>, a: string, b: string)
    requires Joined(edges, a, b)
    ensures a in Touched(edges) && b in Touched(edges) && Joined(edges, b, a)
  {
    var e :| e in edges && Ends(e, a, b);
    assert Ends(e, b, a);
  }

  lemma TouchedHasNeighbor(edges: seq<Edge>, a: string) returns (e: Edge)
    requires a in Touched(edges)
    ensures e in edges && Touches(e, a)
  {
    e :| e in edges && Touches(e, a);
  }

  // ------------------------------------------------------------------ connectedness is an equivalence

  lemma ConnectedSelf(edges: seq<Edge>, a: string)
    ensures Connected(edges, a, a)
  {
    assert WalkFrom(edges, a, a, [a]);
  }

  lemma ConnectedStep(edges: seq<Edge>, a: string, b: string, c: string)
    requires Connected(edges, a, b) && Joined(edges, b, c)
    ensures Connected(edges, a, c)
  {
    var p :| WalkFrom(edges, a, b, p);
    assert (p + [c])[..|p|] == p;
    assert WalkFrom(edges, a, c, p + [c]);
  }

  lemma {:induction false} ConnectedTransitive(edges: seq<Edge>, a: string, b: string, c: string, p: seq<string>)
    requires Connected(edges, a, b) && WalkFrom(edges, b, c, p)
    ensures Connected(edges, a, c)
    decreases |p|
  {
    if |p| > 1 {
      var q := p[..|p| - 1];
      ConnectedTransitive(edges, a, b, q[|q| - 1], q);
      ConnectedStep(edges, a, q[|q| - 1], c);
    }
  }

  lemma {:induction false} WalkBack(edges: seq<Edge>, a: string, b: string, p: seq<string>)
    requires WalkFrom(edges, a, b, p)
    ensures Connected(edges, b, a)
    decreases |p|
  {
    ConnectedSelf(edges, b);
    if |p| > 1 {
      var q := p[..|p| - 1];
      var c := q[|q| - 1];
      WalkBack(edges, a, c, q);
      JoinedIsTouched(edges, c, b);
      ConnectedStep(edges, b, b, c);
      var back :| WalkFrom(edges, c, a, back);
      ConnectedTransitive(edges, b, c, a, back);
    }
  }

  lemma SameComponent(edges: seq<Edge>, a: string, b: string)
    requires Connected(edges, a, b)
    ensures Connected(edges, b, a)
    ensures ComponentOf(edges, a) == ComponentOf(edges, b)
  {
    var p :| WalkFrom(edges, a, b, p);
    WalkBack(edges, a, b, p);
    var q :| WalkFrom(edges, b, a, q);
    forall v | v in Touched(edges)
      ensures Connected(edges, a, v) <==> Connected(edges, b, v)
    {
      if Connected(edges, b, v) {
        var r :| WalkFrom(edges, b, v, r);
        ConnectedTransitive(edges, a, b, v, r);
      }
      if Connected(edges, a, v) {
        var r :| WalkFrom(edges, a, v, r);
        ConnectedTransitive(edges, b, a, v, r);
      }
    }
  }

  // ------------------------------------------------------------------ one search finds one component

  /** Nothing found before is joined to anything else. */
  ghost predicate Closed(edges: seq<Edge>, visited: set<string>) {
    forall a, b :: a in visited && Joined(edges, a, b) ==> b in visited
  }

  lemma {:induction false} PathIsWalk(edges: seq<Edge>, visited: set<string>, stop: set<string>, p: seq<string>)
    requires Path(Adjacency(edges), visited, stop, p) && p[0] in Touched(edges)
    ensures Walk(edges, p) && p[|p| - 1] in Touched(edges)
    decreases |p|
  {
    if |p| > 1 {
      PathIsWalk(edges, visited, stop, p[..|p| - 1]);
      NeighborsAreJoined(edges, p[|p| - 2], p[|p| - 1]);
      JoinedIsTouched(edges, p[|p| - 2], p[|p| - 1]);
    }
  }

  /** A walk that starts outside a closed set stays outside, so the search can follow it. */
  lemma {:induction false} WalkIsPath(edges: seq<Edge>, visited: set<string>, stop: set<string>, p: seq<string>)
    requires Closed(edges, visited) && Touched(edges) !! stop
    requires Walk(edges, p) && p[0] !in visited
    ensures Path(Adjacency(edges), visited, stop, p) && p[|p| - 1] !in visited
    ensures p[|p| - 1] in Nodes(Adjacency(edges)) + {p[0]}
    decreases |p|
  {
    if |p| > 1 {
      var u, v := p[|p| - 2], p[|p| - 1];
      WalkIsPath(edges, visited, stop, p[..|p| - 1]);
      JoinedIsTouched(edges, u, v);
      NeighborsAreJoined(edges, u, v);
      NeighborIsNode(Adjacency(edges), u, v);
    }
  }

  lemma ReachIsComponent(edges: seq<Edge>, visited: set<string>, stop: set<string>, start: string)
    requires Closed(edges, visited) && start in Touched(edges) - visited && Touched(edges) !! stop
    ensures Reach(Adjacency(edges), visited, stop, start) == ComponentOf(edges, start)
    ensures Closed(edges, visited + ComponentOf(edges, start))
    ensures ComponentOf(edges, start) !! visited && start in ComponentOf(edges, start)
  {
    ConnectedSelf(edges, start);
    forall v | v in Reach(Adjacency(edges), visited, stop, start)
      ensures v in ComponentOf(edges, start)
    {
      var p :| PathTo(Adjacency(edges), visited, stop, start, v, p);
      PathIsWalk(edges, visited, stop, p);
      assert WalkFrom(edges, start, v, p);
    }
    forall v | v in ComponentOf(edges, start)
      ensures v in Reach(Adjacency(edges), visited, stop, start) && v !in visited
    {
      var p :| WalkFrom(edges, start, v, p);
      WalkIsPath(edges, visited, stop, p);
      assert PathTo(Adjacency(edges), visited, stop, start, v, p);
    }
    forall a, b | a in ComponentOf(edges, start) && Joined(edges, a, b)
      ensures b in ComponentOf(edges, start)
    {
      JoinedIsTouched(edges, a, b);
      ConnectedStep(edges, start, a, b);
    }
  }

  // ------------------------------------------------------------------ the whole search finds them all

  predicate NoRepeats(comps: seq<set<string>>) {
    forall i, j :: 0 <= i < j < |comps| ==> comps[i] != comps[j]
  }

  /** Each set found is the component of a key not yet visited, and each such key's component is found. */
  ghost predicate Finds(edges: seq<Edge>, keys: seq<string>, visited: set<string>, comps: seq<set<string>>) {
    && NoRepeats(comps)
    && (forall c :: c in comps ==> exists m :: m in keys && m !in visited && c == ComponentOf(edges, m))
    && (forall m :: m in keys && m !in visited ==> ComponentOf(edges, m) in comps)
  }

  lemma OneMoreSet(c: set<string>, rest: seq<set<string>>)
    requires NoRepeats(rest) && c !in rest
    ensures NoRepeats([c] + rest)
  {
    var comps := [c] + rest;
    forall i, j | 0 <= i < j < |comps|
      ensures comps[i] != comps[j]
    {
      assert comps[j] == rest[j - 1];
      if i > 0 {
        assert comps[i] == rest[i - 1];
      }
    }
  }

  lemma FindsOneMore(edges: seq<Edge>, keys: seq<string>, visited: set<string>, rest: seq<set<string>>)
    requires keys != [] && keys[0] in Touched(edges) - visited
    requires forall m :: m in keys ==> m in Touched(edges)
    requires Finds(edges, keys[1..], visited + ComponentOf(edges, keys[0]), rest)
    ensures Finds(edges, keys, visited, [ComponentOf(edges, keys[0])] + rest)
  {
    var start := keys[0];
    var c, tail := ComponentOf(edges, start), keys[1..];
    var comps := [c] + rest;
    forall d | d in rest
      ensures d != c && exists m :: m in keys && m !in visited && d == ComponentOf(edges, m)
    {
      var m :| m in tail && m !in visited + c && d == ComponentOf(edges, m);
      assert m in keys;
      ConnectedSelf(edges, m);
      assert m in d;
    }
    OneMoreSet(c, rest);
    forall m | m in keys && m !in visited
      ensures ComponentOf(edges, m) in comps
    {
      if m in c {
        SameComponent(edges, start, m);
      } else {
        ConnectedSelf(edges, start);
        assert m in tail;
      }
    }
    forall d | d in comps
      ensures exists m :: m in keys && m !in visited && d == ComponentOf(edges, m)
    {
      if d == c {
        assert start in keys;
      }
    }
  }

  lemma {:induction false} SearchFinds(edges: seq<Edge>, stop: set<string>, keys: seq<string>, visited: set<string>)
    requires Closed(edges, visited) && Touched(edges) !! stop
    requires forall m :: m in keys ==> m in Touched(edges)
    ensures Finds(edges, keys, visited, Search(Adjacency(edges), stop, keys, visited))
    decreases |keys|
  {
    if keys == [] {
    } else if keys[0] in visited {
      SearchFinds(edges, stop, keys[1..], visited);
    } else {
      ReachIsComponent(edges, visited, stop, keys[0]);
      SearchFinds(edges, stop, keys[1..], visited + ComponentOf(edges, keys[0]));
      FindsOneMore(edges, keys, visited,
        Search(Adjacency(edges), stop, keys[1..], visited + ComponentOf(edges, keys[0])));
    }
  }

  /** The sets found are exactly the connected components, each once. */
  ghost predicate Exact(edges: seq<Edge>, comps: seq<set<string>>) {
    NoRepeats(comps) && (set c | c in comps) == Components(edges)
  }

  lemma SearchIsExact(edges: seq<Edge>, stop: set<string>)
    requires Touched(edges) !! stop
    ensures Exact(edges, Search(Adjacency(edges), stop, Adjacency(edges).keys, {}))
  {
    var g := Adjacency(edges);
    KeysAreTouched(edges);
    SearchFinds(edges, stop, g.keys, {});
    var comps := Search(g, stop, g.keys, {});
    forall c | c in Components(edges)
      ensures c in comps
    {
      var m :| m in Touched(edges) && c == ComponentOf(edges, m);
      assert m in g.keys;
    }
  }

  /** Components cover every market with an edge, are disjoint, and join exactly what a path joins. */
  lemma ComponentsPartition(edges: seq<Edge>, a: string, b: string)
    requires a in Touched(edges) && b in Touched(edges)
    ensures a in ComponentOf(edges, a)
    ensures Connected(edges, a, b) ==> ComponentOf(edges, a) == ComponentOf(edges, b)
    ensures !Connected(edges, a, b) ==> ComponentOf(edges, a) !! ComponentOf(edges, b)
  {
    ConnectedSelf(edges, a);
    if Connected(edges, a, b) {
      SameComponent(edges, a, b);
    } else if v :| v in ComponentOf(edges, a) && v in ComponentOf(edges, b) {
      SameComponent(edges, b, v);
      var p :| WalkFrom(edges, v, b, p);
      ConnectedTransitive(edges, a, v, b, p);
      assert false;
    }
  }

  lemma {:induction false} CountIsSetSize(comps: seq<set<string>>)
    requires NoRepeats(comps)
    ensures |comps| == |set c | c in comps|
  {
    if comps != [] {
      var front, last := comps[..|comps| - 1], comps[|comps| - 1];
      CountIsSetSize(front);
      assert comps == front + [last];
      assert (set c | c in comps) == (set c | c in front) + {last};
    }
  }

  // ------------------------------------------------------------------ the loops

  /** What the queue loop keeps; the bracketed market's first `done` neighbours have been handled. */
  ghost predicate Frontier(g: Graph, before: set<string>, stop: set<string>, start: string,
    component: set<string>, queue: seq<string>, current: string, done: seq<string>)
  {
    && start in component
    && (forall v :: v in component ==> v in Nodes(g) + {start} && Reaches(g, before, stop, start, v))
    && (forall q :: q in queue ==> q in component)
    && (forall u :: u in component && u !in queue && u !in stop && u != current ==> Handled(g, before, component, u))
    && (forall v :: v in done ==> v in before + component)
  }

  ghost predicate Handled(g: Graph, before: set<string>, component: set<string>, u: string) {
    forall v :: v in Neighbors(g, u) ==> v in before + component
  }

  lemma ReachesStep(g: Graph, avoid: set<string>, stop: set<string>, start: string, u: string, v: string)
    requires Reaches(g, avoid, stop, start, u) && u !in stop && v in Neighbors(g, u) && v !in avoid
    ensures Reaches(g, avoid, stop, start, v)
  {
    var p :| PathTo(g, avoid, stop, start, u, p);
    assert (p + [v])[..|p|] == p;
    assert PathTo(g, avoid, stop, start, v, p + [v]);
  }

  lemma {:induction false} PathStaysInside(g: Graph, avoid: set<string>, stop: set<string>,
        component: set<string>, p: seq<string>)
    requires Path(g, avoid, stop, p) && p[0] in component
    requires forall u :: u in component && u !in stop ==> Handled(g, avoid, component, u)
    ensures p[|p| - 1] in component
    decreases |p|
  {
    if |p| > 1 {
      var q := p[..|p| - 1];
      PathStaysInside(g, avoid, stop, component, q);
      assert Handled(g, avoid, component, q[|q| - 1]);
    }
  }

  lemma EmptyQueueMeansDone(g: Graph, before: set<string>, stop: set<string>, start: string,
        component: set<string>, current: string)
    requires Frontier(g, before, stop, start, component, [], current, [])
    requires current in component && current !in stop ==> Handled(g, before, component, current)
    ensures component == Reach(g, before, stop, start)
  {
    forall v | v in Reach(g, before, stop, start)
      ensures v in component
    {
      var p :| PathTo(g, before, stop, start, v, p);
      PathStaysInside(g, before, stop, component, p);
    }
  }

  lemma FrontierGrows(g: Graph, before: set<string>, stop: set<string>, start: string,
      component: set<string>, queue: seq<string>, current: string, done: seq<string>, v: string)
    requires Frontier(g, before, stop, start, component, queue, current, done)
    requires current in component && current !in stop && v in Neighbors(g, current) && v !in before
    ensures Frontier(g, before, stop, start, component + {v}, queue + [v], current, done + [v])
  {
    ReachesStep(g, before, stop, start, current, v);
    NeighborIsNode(g, current, v);
    forall u | u in component + {v} && u !in queue + [v] && u !in stop && u != current
      ensures Handled(g, before, component + {v}, u)
    {
      assert Handled(g, before, component, u);
    }
  }

  lemma FrontierBegins(g: Graph, before: set<string>, stop: set<string>, start: string)
    ensures Frontier(g, before, stop, start, {start}, [start], start, [])
  {
    assert PathTo(g, before, stop, start, start, [start]);
  }

  /** One market taken off the queue. */
  lemma FrontierShifts(g: Graph, before: set<string>, stop: set<string>, start: string,
      component: set<string>, queue: seq<string>, last: string)
    requires queue != [] && Frontier(g, before, stop, start, component, queue, last, [])
    requires last in queue || (last !in stop ==> Handled(g, before, component, last))
    ensures Frontier(g, before, stop, start, component, queue[1..], queue[0], [])
  {
    forall u | u in component && u !in queue[1..] && u !in stop && u != queue[0]
      ensures Handled(g, before, component, u)
    {
      assert u !in queue by {
        assert queue == [queue[0]] + queue[1..];
      }
    }
  }

  /** The state of a neighbour loop that began with `visited0` and `queue0`. */
  ghost predicate Expanding(g: Graph, before: set<string>, stop: set<string>, start: string, current: string,
    done: seq<string>, component: set<string>, visited: set<string>, queue: seq<string>,
    visited0: set<string>, queue0: seq<string>)
  {
    && visited == before + component && visited0 <= visited && current in component
    && Frontier(g, before, stop, start, component, queue, current, done)
    && ((queue == queue0 && visited == visited0) || |Nodes(g) - visited| < |Nodes(g) - visited0|)
  }

  lemma ExpandNew(g: Graph, before: set<string>, stop: set<string>, start: string, current: string,
      done: seq<string>, component: set<string>, visited: set<string>, queue: seq<string>,
      visited0: set<string>, queue0: seq<string>, v: string)
    requires Expanding(g, before, stop, start, current, done, component, visited, queue, visited0, queue0)
    requires current !in stop && v in Neighbors(g, current) && v !in visited
    ensures Expanding(g, before, stop, start, current, done + [v], component + {v}, visited + {v}, queue + [v],
      visited0, queue0)
  {
    FrontierGrows(g, before, stop, start, component, queue, current, done, v);
    NeighborIsNode(g, current, v);
    Shrinks(Nodes(g), visited, v);
  }

  lemma ExpandOld(g: Graph, before: set<string>, stop: set<string>, start: string, current: string,
      done: seq<string>, component: set<string>, visited: set<string>, queue: seq<string>,
      visited0: set<string>, queue0: seq<string>, v: string)
    requires Expanding(g, before, stop, start, current, done, component, visited, queue, visited0, queue0)
    requires v in visited
    ensures Expanding(g, before, stop, start, current, done + [v], component, visited, queue, visited0, queue0)
  {
  }

  lemma ExpandDone(g: Graph, before: set<string>, stop: set<string>, start: string, current: string,
      component: set<string>, visited: set<string>, queue: seq<string>, visited0: set<string>, queue0: seq<string>)
    requires Expanding(g, before, stop, start, current, Neighbors(g, current), component, visited, queue, visited0,
      queue0)
    ensures Expanding(g, before, stop, start, current, [], component, visited, queue, visited0, queue0)
    ensures Handled(g, before, component, current)
  {
  }

  /** The supervisor's neighbour loop. */
  method Expand(ghost g: Graph, ghost before: set<string>, ghost stop: set<string>, ghost start: string,
      current: string, neighbors: seq<string>, component: set<string>, visited: set<string>, queue: seq<string>)
    returns (component': set<string>, visited': set<string>, queue': seq<string>)
    requires neighbors == Neighbors(g, current) && current !in stop
    requires Expanding(g, before, stop, start, current, [], component, visited, queue, visited, queue)
    ensures Expanding(g, before, stop, start, current, [], component', visited', queue', visited, queue)
    ensures Handled(g, before, component', current)
  {
    hide Expanding, Handled;
    component', visited', queue' := component, visited, queue;
    var i := 0;
    while i < |neighbors|
      invariant 0 <= i <= |neighbors|
      invariant Expanding(g, before, stop, start, current, neighbors[..i], component', visited', queue', visited, queue)
    {
      var neighbor := neighbors[i];
      assert neighbors[..i + 1] == neighbors[..i] + [neighbor];
      if neighbor in visited' {
        ExpandOld(g, before, stop, start, current, neighbors[..i], component', visited', queue', visited, queue,
          neighbor);
      } else {
        ExpandNew(g, before, stop, start, current, neighbors[..i], component', visited', queue', visited, queue,
          neighbor);
        visited' := visited' + {neighbor};
        component' := component' + {neighbor};
        queue' := queue' + [neighbor];
      }
      i := i + 1;
    }
    assert neighbors[..i] == neighbors;
    ExpandDone(g, before, stop, start, current, component', visited', queue', visited, queue);
  }

  lemma Shrinks(nodes: set<string>, visited: set<string>, v: string)
    requires v in nodes && v !in visited
    ensures |nodes - (visited + {v})| < |nodes - visited|
  {
    assert nodes - visited == (nodes - (visited + {v})) + {v};
  }

  /** The supervisor's search: an empty id taken off the queue is skipped. */
  method CollectComponent(start: string, g: Graph, visited: set<string>)
    returns (component: set<string>, visited': set<string>)
    ensures component == Reach(g, visited, {""}, start) && visited' == visited + component
  {
    var queue := [start];
    component := {start};
    visited' := visited + {start};
    FrontierBegins(g, visited, {""}, start);
    ghost var last := start;
    while |queue| > 0
      invariant visited' == visited + component
      invariant Frontier(g, visited, {""}, start, component, queue, last, [])
      invariant last in queue || (last !in {""} ==> Handled(g, visited, component, last))
      decreases |Nodes(g) - visited'|, |queue|
    {
      var current := queue[0];
      FrontierShifts(g, visited, {""}, start, component, queue, last);
      last := current;
      queue := queue[1..];
      if current != "" {
        component, visited', queue :=
          Expand(g, visited, {""}, start, current, Neighbors(g, current), component, visited', queue);
      }
    }
    EmptyQueueMeansDone(g, visited, {""}, start, component, last);
  }

  /** The loop over all keys. */
  method FindComponents(g: Graph) returns (comps: seq<set<string>>)
    ensures comps == Search(g, {""}, g.keys, {})
  {
    hide Reach;
    comps := [];
    var visited: set<string> := {};
    var i := 0;
    while i < |g.keys|
      invariant 0 <= i <= |g.keys|
      invariant comps + Search(g, {""}, g.keys[i..], visited) == Search(g, {""}, g.keys, {})
    {
      assert g.keys[i..][1..] == g.keys[i + 1..];
      if g.keys[i] !in visited {
        ghost var before := visited;
        var component: set<string>;
        component, visited := CollectComponent(g.keys[i], g, visited);
        assert comps + ([component] + Search(g, {""}, g.keys[i + 1..], before + component))
          == (comps + [component]) + Search(g, {""}, g.keys[i + 1..], before + component);
        comps := comps + [component];
      }
      i := i + 1;
    }
  }

  /** The statistics' neighbour loop, which keeps only what it has seen. */
  method ExpandSeen(ghost g: Graph, ghost before: set<string>, ghost start: string,
      current: string, neighbors: seq<string>, ghost component: set<string>, visited: set<string>, queue: seq<string>)
    returns (ghost component': set<string>, visited': set<string>, queue': seq<string>)
    requires neighbors == Neighbors(g, current)
    requires Expanding(g, before, {}, start, current, [], component, visited, queue, visited, queue)
    ensures Expanding(g, before, {}, start, current, [], component', visited', queue', visited, queue)
    ensures Handled(g, before, component', current)
  {
    hide Expanding, Handled;
    component', visited', queue' := component, visited, queue;
    var i := 0;
    while i < |neighbors|
      invariant 0 <= i <= |neighbors|
      invariant Expanding(g, before, {}, start, current, neighbors[..i], component', visited', queue', visited, queue)
    {
      var neighbor := neighbors[i];
      assert neighbors[..i + 1] == neighbors[..i] + [neighbor];
      if neighbor in visited' {
        ExpandOld(g, before, {}, start, current, neighbors[..i], component', visited', queue', visited, queue,
          neighbor);
      } else {
        ExpandNew(g, before, {}, start, current, neighbors[..i], component', visited', queue', visited, queue,
          neighbor);
        visited' := visited' + {neighbor};
        component' := component' + {neighbor};
        queue' := queue' + [neighbor];
      }
      i := i + 1;
    }
    assert neighbors[..i] == neighbors;
    ExpandDone(g, before, {}, start, current, component', visited', queue', visited, queue);
  }

  /** The quality statistics' own search; it keeps no sets, only what it has seen. */
  method Flood(start: string, g: Graph, seen: set<string>) returns (seen': set<string>)
    ensures seen' == seen + Reach(g, seen, {}, start)
  {
    var queue := [start];
    ghost var component := {start};
    seen' := seen + {start};
    FrontierBegins(g, seen, {}, start);
    ghost var last := start;
    while |queue| > 0
      invariant seen' == seen + component
      invariant Frontier(g, seen, {}, start, component, queue, last, [])
      invariant last in queue || Handled(g, seen, component, last)
      decreases |Nodes(g) - seen'|, |queue|
    {
      var current := queue[0];
      FrontierShifts(g, seen, {}, start, component, queue, last);
      last := current;
      queue := queue[1..];
      component, seen', queue := ExpandSeen(g, seen, start, current, Neighbors(g, current), component, seen', queue);
    }
    EmptyQueueMeansDone(g, seen, {}, start, component, last);
  }

  method CountComponents(g: Graph) returns (count: nat)
    ensures count == |Search(g, {}, g.keys, {})|
  {
    count := 0;
    var seen: set<string> := {};
    var i := 0;
    while i < |g.keys|
      invariant 0 <= i <= |g.keys|
      invariant count + |Search(g, {}, g.keys[i..], seen)| == |Search(g, {}, g.keys, {})|
    {
      assert g.keys[i..][1..] == g.keys[i + 1..];
      if g.keys[i] !in seen {
        count := count + 1;
        seen := Flood(g.keys[i], g, seen);
      }
      i := i + 1;
    }
  }

  /** The supervisor's adjacency map, edge by edge. */
  method BuildAdjacency(edges: seq<Edge>) returns (g: Graph)
    ensures g == Adjacency(edges)
  {
    g := Graph([], map[]);
    var i := 0;
    while i < |edges|
      invariant 0 <= i <= |edges|
      invariant g == Adjacency(edges[..i])
    {
      var e := edges[i];
      assert edges[..i + 1][..i] == edges[..i];
      g := Linked(g, e.marketA, e.marketB);
      g := Linked(g, e.marketB, e.marketA);
      i := i + 1;
    }
    assert edges[..i] == edges;
  }
}

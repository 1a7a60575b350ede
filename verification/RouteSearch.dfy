/**
 Breadth-first search over a directed graph, as a value: the nodes in the order they are
 discovered and, for each, the position of the node it was discovered from.  Both catalog
 routers follow this discovery; soundness, completeness and minimality are proved here.
 */
module RouteSearch {
  import opened StoreBytes

  datatype Edge = Edge(from: nat, to: nat)

  datatype Graph = Graph(n: nat, edges: seq<Edge>)
  {
    predicate Valid() {
      forall e :: e in edges ==> e.from < n && e.to < n
    }
  }

  /** `parents[k] < k` is the position of the node from which `order[k]` was discovered. */
  datatype Discovery = Discovery(order: seq<nat>, parents: seq<nat>)

  function Visit(d: Discovery, p: nat, at: nat, e: Edge): Discovery {
    if e.from == at && e.to !in d.order then Discovery(d.order + [e.to], d.parents + [p]) else d
  }

  /** The edges scanned for the node `at` at position `p`. */
  function Scan(d: Discovery, p: nat, at: nat, edges: seq<Edge>): Discovery {
    if edges == [] then d else Visit(Scan(d, p, at, edges[..|edges| - 1]), p, at, edges[|edges| - 1])
  }

  /** The discovery after the first k discovered nodes have been expanded. */
  function Expanded(g: Graph, start: nat, k: nat): Discovery {
    if k == 0 then Discovery([start], [0])
    else
      var d := Expanded(g, start, k - 1);
      if k - 1 < |d.order| then Scan(d, k - 1, d.order[k - 1], g.edges) else d
  }

  predicate Shape(d: Discovery) {
    && |d.order| == |d.parents| > 0
    && (forall k :: 0 < k < |d.order| ==> d.parents[k] < k)
  }

  /** The nodes after the start on the way to the k-th discovered node. */
  function Path(d: Discovery, k: nat): seq<nat>
    requires Shape(d) && k < |d.order|
    decreases k
  {
    if k == 0 then [] else Path(d, d.parents[k]) + [d.order[k]]
  }

  predicate Distinct(s: seq<nat>) {
    forall i, j :: 0 <= i < j < |s| ==> s[i] != s[j]
  }

  /** Parents are joined by edges and never decrease along the order. */
  ghost predicate Links(g: Graph, d: Discovery)
    requires Shape(d)
  {
    && (forall j :: 0 < j < |d.order| ==> Edge(d.order[d.parents[j]], d.order[j]) in g.edges)
    && (forall i, j :: 0 < i <= j < |d.order| ==> d.parents[i] <= d.parents[j])
  }

  /** What is known after k expansions. */
  ghost predicate Explored(g: Graph, start: nat, d: Discovery, k: nat) {
    && Shape(d)
    && d.order[0] == start
    && Distinct(d.order)
    && (forall v :: v in d.order ==> v < g.n)
    && Links(g, d)
    && (forall j :: 0 < j < |d.order| ==> d.parents[j] < k)
    && (forall p, e :: 0 <= p < k && p < |d.order| && e in g.edges && e.from == d.order[p] ==> Reached(d, e.to, p))
  }

  /** The node was discovered from position p at the latest. */
  ghost predicate Reached(d: Discovery, v: nat, p: nat)
    requires Shape(d)
  {
    exists q :: 0 <= q < |d.order| && d.order[q] == v && (q == 0 || d.parents[q] <= p)
  }

  /** Midway through the expansion of position k: the edges in `done` have been scanned. */
  ghost predicate Scanning(g: Graph, start: nat, d: Discovery, k: nat, done: seq<Edge>) {
    && Shape(d) && k < |d.order|
    && d.order[0] == start
    && Distinct(d.order)
    && (forall v :: v in d.order ==> v < g.n)
    && Links(g, d)
    && (forall j :: 0 < j < |d.order| ==> d.parents[j] <= k)
    && (forall p, e :: 0 <= p < k && e in g.edges && e.from == d.order[p] ==> Reached(d, e.to, p))
    && (forall e :: e in done && e.from == d.order[k] ==> Reached(d, e.to, k))
  }

  lemma ReachedLater(d: Discovery, d': Discovery, v: nat, p: nat)
    requires Shape(d) && Shape(d') && d.order <= d'.order && d.parents <= d'.parents
    requires Reached(d, v, p)
    ensures Reached(d', v, p)
  {
    var q :| 0 <= q < |d.order| && d.order[q] == v && (q == 0 || d.parents[q] <= p);
    assert d'.order[q] == v && d'.parents[q] == d.parents[q];
  }

  lemma SkipScanning(g: Graph, start: nat, d: Discovery, k: nat, done: seq<Edge>, e: Edge)
    requires Scanning(g, start, d, k, done) && (e.from != d.order[k] || e.to in d.order)
    ensures Scanning(g, start, d, k, done + [e])
  {
    if e.from == d.order[k] {
      var q :| 0 <= q < |d.order| && d.order[q] == e.to;
      assert Reached(d, e.to, k);
    }
  }

  lemma AddLinks(g: Graph, d: Discovery, k: nat, to: nat)
    requires Shape(d) && k < |d.order| && Links(g, d) && Edge(d.order[k], to) in g.edges
    requires forall j :: 0 < j < |d.order| ==> d.parents[j] <= k
    ensures
      var d' := Discovery(d.order + [to], d.parents + [k]);
      Shape(d') && Links(g, d') && forall j :: 0 < j < |d'.order| ==> d'.parents[j] <= k
  {
  }

  lemma AddDistinct(s: seq<nat>, v: nat, n: nat)
    requires Distinct(s) && v !in s && v < n && forall x :: x in s ==> x < n
    ensures Distinct(s + [v]) && forall x :: x in s + [v] ==> x < n
  {
  }

  lemma AddShape(g: Graph, start: nat, d: Discovery, k: nat, done: seq<Edge>, e: Edge)
    requires g.Valid() && e in g.edges && Scanning(g, start, d, k, done) && e.from == d.order[k] && e.to !in d.order
    ensures
      var d' := Discovery(d.order + [e.to], d.parents + [k]);
      Scanning(g, start, d', k, [])
  {
    hide Links, Distinct, Reached;
    var d' := Discovery(d.order + [e.to], d.parents + [k]);
    assert e == Edge(d.order[k], e.to);
    AddLinks(g, d, k, e.to);
    AddDistinct(d.order, e.to, g.n);
    forall p, x | 0 <= p < k && x in g.edges && x.from == d'.order[p]
      ensures Reached(d', x.to, p)
    {
      assert Reached(d, x.to, p);
      ReachedLater(d, d', x.to, p);
    }
  }

  lemma AddReached(g: Graph, start: nat, d: Discovery, k: nat, done: seq<Edge>, e: Edge)
    requires Scanning(g, start, d, k, done) && e.from == d.order[k] && e.to !in d.order
    ensures
      var d' := Discovery(d.order + [e.to], d.parents + [k]);
      Shape(d') && forall x :: x in done + [e] && x.from == d.order[k] ==> Reached(d', x.to, k)
  {
    var d' := Discovery(d.order + [e.to], d.parents + [k]);
    forall x | x in done + [e] && x.from == d.order[k]
      ensures Reached(d', x.to, k)
    {
      if x in done {
        ReachedLater(d, d', x.to, k);
      } else {
        assert d'.order[|d.order|] == e.to && d'.parents[|d.order|] == k;
      }
    }
  }

  lemma VisitScanning(g: Graph, start: nat, d: Discovery, k: nat, done: seq<Edge>, e: Edge)
    requires g.Valid() && e in g.edges && Scanning(g, start, d, k, done)
    ensures Scanning(g, start, Visit(d, k, d.order[k], e), k, done + [e])
    ensures d.order <= Visit(d, k, d.order[k], e).order && d.parents <= Visit(d, k, d.order[k], e).parents
  {
    hide Reached, Distinct;
    if e.from == d.order[k] && e.to !in d.order {
      AddShape(g, start, d, k, done, e);
      AddReached(g, start, d, k, done, e);
    } else {
      SkipScanning(g, start, d, k, done, e);
    }
  }

  lemma {:induction false} ScanScanning(g: Graph, start: nat, d: Discovery, k: nat, edges: seq<Edge>)
    requires g.Valid() && edges <= g.edges && Scanning(g, start, d, k, [])
    ensures Scanning(g, start, Scan(d, k, d.order[k], edges), k, edges)
    ensures d.order <= Scan(d, k, d.order[k], edges).order && d.parents <= Scan(d, k, d.order[k], edges).parents
    decreases |edges|
  {
    hide Scanning, Visit;
    ScanNothing(g, start, d, k);
    if edges != [] {
      var front, last := edges[..|edges| - 1], edges[|edges| - 1];
      ScanScanning(g, start, d, k, front);
      var m := Scan(d, k, d.order[k], front);
      StillWithin(g, start, d, m, k, front);
      VisitScanning(g, start, m, k, front, last);
      assert front + [last] == edges;
    }
  }

  lemma ScanNothing(g: Graph, start: nat, d: Discovery, k: nat)
    requires Scanning(g, start, d, k, [])
    ensures Shape(d) && k < |d.order|
  {
  }

  lemma StillWithin(g: Graph, start: nat, d: Discovery, m: Discovery, k: nat, done: seq<Edge>)
    requires Scanning(g, start, d, k, []) && Scanning(g, start, m, k, done) && d.order <= m.order
    ensures k < |d.order| && k < |m.order| && m.order[k] == d.order[k]
  {
  }

  lemma BeginScan(g: Graph, start: nat, d: Discovery, k: nat)
    requires Explored(g, start, d, k) && k < |d.order|
    ensures Scanning(g, start, d, k, [])
  {
  }

  lemma EndScan(g: Graph, start: nat, d: Discovery, k: nat)
    requires Scanning(g, start, d, k, g.edges)
    ensures Explored(g, start, d, k + 1)
  {
  }

  lemma NothingToScan(g: Graph, start: nat, d: Discovery, k: nat)
    requires Explored(g, start, d, k) && k >= |d.order|
    ensures Explored(g, start, d, k + 1)
  {
  }

  /** One expansion keeps the invariant and only adds nodes. */
  lemma ExpandStep(g: Graph, start: nat, k: nat)
    requires g.Valid() && Explored(g, start, Expanded(g, start, k), k)
    ensures Explored(g, start, Expanded(g, start, k + 1), k + 1)
    ensures Expanded(g, start, k).order <= Expanded(g, start, k + 1).order
    ensures Expanded(g, start, k).parents <= Expanded(g, start, k + 1).parents
  {
    hide Explored, Scanning, Scan;
    var d := Expanded(g, start, k);
    if k < |d.order| {
      BeginScan(g, start, d, k);
      ScanScanning(g, start, d, k, g.edges);
      EndScan(g, start, Scan(d, k, d.order[k], g.edges), k);
    } else {
      NothingToScan(g, start, d, k);
    }
  }

  lemma StartExplored(g: Graph, start: nat)
    requires start < g.n
    ensures Explored(g, start, Discovery([start], [0]), 0)
  {
  }

  lemma {:induction false} ExpandedExplored(g: Graph, start: nat, k: nat)
    requires g.Valid() && start < g.n
    ensures Explored(g, start, Expanded(g, start, k), k)
  {
    hide Explored, Scan;
    if k == 0 {
      StartExplored(g, start);
    } else {
      ExpandedExplored(g, start, k - 1);
      ExpandStep(g, start, k - 1);
    }
  }

  /** Expanding further only adds to what was discovered. */
  lemma {:induction false} ExpandedGrows(g: Graph, start: nat, i: nat, k: nat)
    requires g.Valid() && start < g.n && i <= k
    ensures Expanded(g, start, i).order <= Expanded(g, start, k).order
    ensures Expanded(g, start, i).parents <= Expanded(g, start, k).parents
    decreases k - i
  {
    hide Explored, Scan, Expanded;
    if i < k {
      ExpandedGrows(g, start, i, k - 1);
      ExpandedExplored(g, start, k - 1);
      ExpandStep(g, start, k - 1);
    }
  }

  lemma {:induction false} PathStable(d: Discovery, d': Discovery, k: nat)
    requires Shape(d) && Shape(d') && d.order <= d'.order && d.parents <= d'.parents && k < |d.order|
    ensures Path(d, k) == Path(d', k)
    decreases k
  {
    if k > 0 {
      PathStable(d, d', d.parents[k]);
    }
  }

  // ------------------------------------------------------------------ bounds

  /** Distinct numbers below n: at most n of them. */
  lemma {:induction false} Pigeonhole(s: seq<nat>, n: nat)
    requires Distinct(s) && forall v :: v in s ==> v < n
    ensures |s| <= n
    decreases n
  {
    if s != [] {
      assert s[0] in s;
      if n - 1 in s {
        var q :| 0 <= q < |s| && s[q] == n - 1;
        var t := s[..q] + s[q + 1..];
        forall v | v in t ensures v < n - 1 {
          var j :| 0 <= j < |t| && t[j] == v;
          if j < q { assert v == s[j] && s[j] in s; } else { assert v == s[j + 1] && s[j + 1] in s; }
        }
        forall i, j | 0 <= i < j < |t| ensures t[i] != t[j] {
          var a := if i < q then i else i + 1;
          var b := if j < q then j else j + 1;
          assert t[i] == s[a] && t[j] == s[b];
        }
        Pigeonhole(t, n - 1);
      } else {
        Pigeonhole(s, n - 1);
      }
    }
  }

  lemma QueueBound(g: Graph, start: nat, k: nat)
    requires g.Valid() && start < g.n
    ensures |Expanded(g, start, k).order| <= g.n
  {
    ExpandedExplored(g, start, k);
    Pigeonhole(Expanded(g, start, k).order, g.n);
  }

  // ------------------------------------------------------------------ the route

  function Position(s: seq<nat>, v: nat): (q: nat)
    requires v in s
    ensures q < |s| && s[q] == v
  {
    if s[0] == v then 0 else 1 + Position(s[1..], v)
  }

  /** The route found when everything reachable has been expanded. */
  function Route(g: Graph, start: nat, target: nat): Option<seq<nat>>
    requires g.Valid() && start < g.n
  {
    ExpandedExplored(g, start, g.n);
    var d := Expanded(g, start, g.n);
    if target in d.order then Some(Path(d, Position(d.order, target))) else None
  }

  /** A search may stop as soon as the target is discovered: its path is already final. */
  lemma RouteAt(g: Graph, start: nat, k: nat, q: nat, target: nat)
    requires g.Valid() && start < g.n
    requires q < |Expanded(g, start, k).order| && Expanded(g, start, k).order[q] == target
    ensures Shape(Expanded(g, start, k)) && Route(g, start, target) == Some(Path(Expanded(g, start, k), q))
  {
    hide Scan;
    var m := if k < g.n then g.n else k;
    ExpandedExplored(g, start, k);
    ExpandedExplored(g, start, m);
    ExpandedExplored(g, start, g.n);
    ExpandedGrows(g, start, k, m);
    Saturated(g, start, m);
    var d, f := Expanded(g, start, k), Expanded(g, start, m);
    assert f.order[q] == target;
    var r := Position(f.order, target);
    assert r == q;
    PathStable(d, f, q);
  }

  /** After as many expansions as there are nodes, nothing is left to expand. */
  lemma {:induction false} Saturated(g: Graph, start: nat, k: nat)
    requires g.Valid() && start < g.n && k >= g.n
    ensures Expanded(g, start, k) == Expanded(g, start, g.n)
    decreases k
  {
    if k > g.n {
      Saturated(g, start, k - 1);
      QueueBound(g, start, k - 1);
    }
  }

  /** A search that has expanded everything it discovered without the target has no route. */
  lemma NoRoute(g: Graph, start: nat, k: nat, target: nat)
    requires g.Valid() && start < g.n
    requires k >= |Expanded(g, start, k).order| && target !in Expanded(g, start, k).order
    ensures Route(g, start, target) == None
  {
    hide Scan;
    ExpandedExplored(g, start, g.n);
    if k >= g.n {
      Saturated(g, start, k);
    } else {
      Exhausted(g, start, k, g.n);
    }
  }

  lemma {:induction false} Exhausted(g: Graph, start: nat, k: nat, m: nat)
    requires k >= |Expanded(g, start, k).order| && k <= m
    ensures Expanded(g, start, m) == Expanded(g, start, k)
    decreases m
  {
    if k < m {
      Exhausted(g, start, k, m - 1);
    }
  }

  // ---------------------------------------------- soundness, completeness, minimality

  /** `path` leads from `start` along edges of the graph. */
  predicate Walk(g: Graph, start: nat, path: seq<nat>)
    decreases |path|
  {
    path == [] ||
    (Walk(g, start, path[..|path| - 1]) && Edge(End(start, path[..|path| - 1]), path[|path| - 1]) in g.edges)
  }

  function End(start: nat, path: seq<nat>): nat {
    if path == [] then start else path[|path| - 1]
  }

  lemma {:induction false} PathIsWalk(g: Graph, start: nat, d: Discovery, k: nat, q: nat)
    requires Explored(g, start, d, k) && q < |d.order|
    ensures Walk(g, start, Path(d, q)) && End(start, Path(d, q)) == d.order[q] && |Path(d, q)| <= q
    decreases q
  {
    if q > 0 {
      var front := Path(d, d.parents[q]);
      PathIsWalk(g, start, d, k, d.parents[q]);
      assert Path(d, q)[..|Path(d, q)| - 1] == front;
    }
  }

  lemma {:induction false} DepthMonotone(g: Graph, start: nat, d: Discovery, k: nat, i: nat, j: nat)
    requires Explored(g, start, d, k) && i <= j < |d.order|
    ensures |Path(d, i)| <= |Path(d, j)|
    decreases j
  {
    if i > 0 {
      DepthMonotone(g, start, d, k, d.parents[i], d.parents[j]);
    }
  }

  /** The position p node's successors are discovered at most one step deeper. */
  lemma SuccessorDepth(g: Graph, start: nat, d: Discovery, k: nat, p: nat, e: Edge) returns (q: nat)
    requires Explored(g, start, d, k) && p < k && p < |d.order| && e in g.edges && e.from == d.order[p]
    ensures q < |d.order| && d.order[q] == e.to && |Path(d, q)| <= |Path(d, p)| + 1
  {
    assert Reached(d, e.to, p);
    q :| 0 <= q < |d.order| && d.order[q] == e.to && (q == 0 || d.parents[q] <= p);
    if q > 0 {
      DepthMonotone(g, start, d, k, d.parents[q], p);
    }
  }

  /** Any walk ends at a discovered node no deeper than the walk, unless the frontier is shallower. */
  lemma {:induction false} WalkMeetsFrontier(g: Graph, start: nat, d: Discovery, k: nat, path: seq<nat>)
    returns (q: nat)
    requires Explored(g, start, d, k) && Walk(g, start, path)
    ensures
      (q < |d.order| && d.order[q] == End(start, path) && |Path(d, q)| <= |path|) ||
      (k < |d.order| && |Path(d, k)| < |path|)
    decreases |path|
  {
    if path == [] {
      q := 0;
    } else {
      hide Explored;
      var front := path[..|path| - 1];
      q := WalkMeetsFrontier(g, start, d, k, front);
      if !(k < |d.order| && |Path(d, k)| < |front|) {
        if q < k {
          q := SuccessorDepth(g, start, d, k, q, Edge(d.order[q], path[|path| - 1]));
        } else {
          DepthMonotone(g, start, d, k, k, q);
        }
      }
    }
  }

  /** A route is a walk from the start to the target inside the graph. */
  lemma RouteSound(g: Graph, start: nat, target: nat)
    requires g.Valid() && start < g.n && Route(g, start, target).Some?
    ensures
      var path := Route(g, start, target).value;
      Walk(g, start, path) && End(start, path) == target && |path| < g.n
  {
    ExpandedExplored(g, start, g.n);
    QueueBound(g, start, g.n);
    var d := Expanded(g, start, g.n);
    PathIsWalk(g, start, d, g.n, Position(d.order, target));
  }

  /** Whenever any walk reaches the target a route is found, and none is shorter. */
  lemma RouteCompleteAndShortest(g: Graph, start: nat, target: nat, walk: seq<nat>)
    requires g.Valid() && start < g.n
    requires Walk(g, start, walk) && End(start, walk) == target
    ensures Route(g, start, target).Some? && |Route(g, start, target).value| <= |walk|
  {
    hide Scan, Expanded;
    ExpandedExplored(g, start, g.n);
    QueueBound(g, start, g.n);
    var d := Expanded(g, start, g.n);
    var q := WalkMeetsFrontier(g, start, d, g.n, walk);
    assert Position(d.order, target) == q;
  }
}

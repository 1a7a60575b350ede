/**
 The two routers.  tools/l4common/catalog.c keeps a parent array and a fixed queue and walks
 the parents backwards; l4release/catalog.py queues whole paths.  Both are proved against
 the discovery of module RouteSearch, so they return the same releases.
 */
module CatalogRouting {
  import opened StoreBytes
  import opened CatalogModel
  import opened RouteSearch

  // ------------------------------------------------------------- native catalog

  datatype NativeEdge = NativeEdge(from: nat, to: nat, arch: string, profile: string)

  datatype Native = Native(releases: seq<Release>, edges: seq<NativeEdge>, stable: int)
  {
    predicate Valid() {
      && 1 <= |releases| <= MAX_RELEASES
      && |edges| <= MAX_TRANSITIONS
      && (forall k :: 0 <= k < |edges| ==> edges[k].from < |releases| && edges[k].to < |releases|)
      && -1 <= stable < |releases|
    }
  }

  function NativeEdges(rs: seq<Release>, ts: seq<Transition>): (es: seq<NativeEdge>)
    requires forall k :: 0 <= k < |ts| ==> Find(rs, ts[k].from) >= 0 && Find(rs, ts[k].to) >= 0
    ensures |es| == |ts|
    ensures forall k :: 0 <= k < |ts| ==>
              es[k] == NativeEdge(Find(rs, ts[k].from), Find(rs, ts[k].to), ts[k].arch, ts[k].profile)
  {
    seq(|ts|, k requires 0 <= k < |ts| => NativeEdge(Find(rs, ts[k].from), Find(rs, ts[k].to), ts[k].arch, ts[k].profile))
  }

  /** What the native parser makes of a document it accepts. */
  function ToNative(c: Catalog): (n: Native)
    requires WellFormed(c)
    ensures n.Valid()
  {
    Native(c.releases, NativeEdges(c.releases, c.transitions),
           if c.stable.None? then -1 else Find(c.releases, c.stable.value))
  }

  // ------------------------------------------------------------- admitted graph

  predicate Admits(rs: seq<Release>, e: NativeEdge, arch: string, profile: string)
    requires e.to < |rs|
  {
    e.arch == arch && e.profile == profile && !rs[e.to].revoked
  }

  /** The edges of one platform into releases that are not revoked, in catalog order. */
  function Admitted(rs: seq<Release>, es: seq<NativeEdge>, arch: string, profile: string): (r: seq<Edge>)
    requires forall k :: 0 <= k < |es| ==> es[k].from < |rs| && es[k].to < |rs|
    ensures forall e :: e in r ==> e.from < |rs| && e.to < |rs|
  {
    if es == [] then []
    else
      var front := Admitted(rs, es[..|es| - 1], arch, profile);
      var last := es[|es| - 1];
      if Admits(rs, last, arch, profile) then front + [Edge(last.from, last.to)] else front
  }

  function GraphOf(n: Native, arch: string, profile: string): (g: Graph)
    requires n.Valid()
    ensures g.Valid() && g.n == |n.releases|
  {
    Graph(|n.releases|, Admitted(n.releases, n.edges, arch, profile))
  }

  lemma {:induction false} AdmittedContains(rs: seq<Release>, es: seq<NativeEdge>, arch: string, profile: string, e: Edge)
    requires forall k :: 0 <= k < |es| ==> es[k].from < |rs| && es[k].to < |rs|
    ensures e in Admitted(rs, es, arch, profile) <==>
            exists k :: 0 <= k < |es| && Admits(rs, es[k], arch, profile) && e == Edge(es[k].from, es[k].to)
  {
    if es != [] {
      var front, last := es[..|es| - 1], es[|es| - 1];
      AdmittedContains(rs, front, arch, profile, e);
      if e in Admitted(rs, front, arch, profile) {
        var k :| 0 <= k < |front| && Admits(rs, front[k], arch, profile) && e == Edge(front[k].from, front[k].to);
        assert es[k] == front[k];
      }
      if k :| 0 <= k < |es| && Admits(rs, es[k], arch, profile) && e == Edge(es[k].from, es[k].to) {
        if k < |front| {
          assert front[k] == es[k];
        }
      }
    }
  }

  // ------------------------------------------------------------- what both compute

  function Target(n: Native, requested: string): int {
    if requested == "latest" then n.stable else Find(n.releases, requested)
  }

  function Pick(rs: seq<Release>, path: seq<nat>): (r: seq<Release>)
    requires forall k :: 0 <= k < |path| ==> path[k] < |rs|
    ensures |r| == |path| && forall k :: 0 <= k < |path| ==> r[k] == rs[path[k]]
  {
    seq(|path|, k requires 0 <= k < |path| => rs[path[k]])
  }

  lemma {:induction false} WalkInside(g: Graph, start: nat, path: seq<nat>)
    requires g.Valid() && Walk(g, start, path)
    ensures forall k :: 0 <= k < |path| ==> path[k] < g.n
    decreases |path|
  {
    if path != [] {
      var front := path[..|path| - 1];
      WalkInside(g, start, front);
      forall k | 0 <= k < |path| ensures path[k] < g.n {
        if k < |front| {
          assert path[k] == front[k];
        }
      }
    }
  }

  /** The releases after the installed one, or nothing. */
  function RouteOf(n: Native, current: string, manifest: Digest, requested: string, arch: string, profile: string)
    : Option<seq<Release>>
    requires n.Valid()
  {
    var start, target := Find(n.releases, current), Target(n, requested);
    if start < 0 || target < 0 || n.releases[target].revoked || n.releases[start].manifest != manifest then None
    else
      var g := GraphOf(n, arch, profile);
      match Route(g, start, target)
      case None => None
      case Some(path) =>
        RouteSound(g, start, target);
        WalkInside(g, start, path);
        Some(Pick(n.releases, path))
  }

  // ------------------------------------------------------------- native router

  /** The searching state of the native router against the discovery. */
  ghost predicate Mirrors(d: Discovery, parent: seq<int>, queue: seq<nat>, n: nat) {
    && Shape(d) && d.parents[0] == 0
    && |parent| == n
    && queue == d.order
    && (forall v :: 0 <= v < n ==> (parent[v] < 0 <==> v !in d.order))
    && (forall k :: 0 <= k < |d.order| ==> d.order[k] < n && parent[d.order[k]] == d.order[d.parents[k]])
  }

  lemma MirrorsDiscovery(d: Discovery, parent: seq<int>, queue: seq<nat>, n: nat, p: nat, to: nat)
    requires Mirrors(d, parent, queue, n) && p < |d.order| && to < n && to !in d.order
    ensures Mirrors(Discovery(d.order + [to], d.parents + [p]), parent[to := d.order[p]], queue + [to], n)
  {
    var d', parent' := Discovery(d.order + [to], d.parents + [p]), parent[to := d.order[p]];
    assert forall v :: v in d'.order <==> v in d.order || v == to;
    forall k | 0 <= k < |d'.order| ensures d'.order[k] < n && parent'[d'.order[k]] == d'.order[d'.parents[k]] {
      if k < |d.order| {
        assert d.order[k] in d.order;
      }
    }
  }

  lemma {:induction false} AdmittedPrefix(rs: seq<Release>, es: seq<NativeEdge>, arch: string, profile: string, i: nat)
    requires i <= |es| && forall k :: 0 <= k < |es| ==> es[k].from < |rs| && es[k].to < |rs|
    ensures Admitted(rs, es[..i], arch, profile) <= Admitted(rs, es, arch, profile)
    decreases |es| - i
  {
    if i == |es| {
      assert es[..i] == es;
    } else {
      assert es[..i + 1][..i] == es[..i];
      AdmittedPrefix(rs, es, arch, profile, i + 1);
    }
  }

  /** What scanning one more transition does to the discovery. */
  lemma ScanNext(n: Native, arch: string, profile: string, d: Discovery, p: nat, i: nat)
    requires n.Valid() && i < |n.edges| && p < |d.order|
    ensures
      var e := n.edges[i];
      var m := Scan(d, p, d.order[p], Admitted(n.releases, n.edges[..i], arch, profile));
      var m' := Scan(d, p, d.order[p], Admitted(n.releases, n.edges[..i + 1], arch, profile));
      if Admits(n.releases, e, arch, profile) && e.from == d.order[p] && e.to !in m.order
      then m' == Discovery(m.order + [e.to], m.parents + [p])
      else m' == m
  {
    hide Scan, Admitted;
    var e := n.edges[i];
    AdmittedNext(n.releases, n.edges, arch, profile, i);
    ScanSnoc(d, p, d.order[p], Admitted(n.releases, n.edges[..i], arch, profile), Edge(e.from, e.to));
  }

  lemma AdmittedNext(rs: seq<Release>, es: seq<NativeEdge>, arch: string, profile: string, i: nat)
    requires i < |es| && forall k :: 0 <= k < |es| ==> es[k].from < |rs| && es[k].to < |rs|
    ensures Admitted(rs, es[..i + 1], arch, profile) ==
            if Admits(rs, es[i], arch, profile) then Admitted(rs, es[..i], arch, profile) + [Edge(es[i].from, es[i].to)]
            else Admitted(rs, es[..i], arch, profile)
  {
    assert es[..i + 1][..i] == es[..i];
  }

  lemma ScanSnoc(d: Discovery, p: nat, at: nat, edges: seq<Edge>, e: Edge)
    ensures Scan(d, p, at, edges + [e]) == Visit(Scan(d, p, at, edges), p, at, e)
  {
    assert (edges + [e])[..|edges|] == edges;
  }

  /** Between two transitions of one expansion: discovered nodes are never more than the releases. */
  lemma ScanBound(n: Native, arch: string, profile: string, start: nat, d: Discovery, p: nat, i: nat)
    requires n.Valid() && i <= |n.edges| && Scanning(GraphOf(n, arch, profile), start, d, p, [])
    ensures p < |d.order|
    ensures
      var m := Scan(d, p, d.order[p], Admitted(n.releases, n.edges[..i], arch, profile));
      |m.order| <= |n.releases| && d.order <= m.order && d.parents <= m.parents
  {
    var g := GraphOf(n, arch, profile);
    AdmittedPrefix(n.releases, n.edges, arch, profile, i);
    var es := Admitted(n.releases, n.edges[..i], arch, profile);
    ScanScanning(g, start, d, p, es);
    Pigeonhole(Scan(d, p, d.order[p], es).order, g.n);
  }

  /** A newly discovered release gets its parent and goes to the end of the queue. */
  method Discover(parent: array<int>, queue: array<nat>, tail: nat, at: nat, to: nat,
                  ghost m: Discovery, ghost p: nat, ghost size: nat)
    requires parent as object != queue as object
    requires size <= parent.Length && tail < queue.Length && to < size
    requires Mirrors(m, parent[..size], queue[..tail], size)
    requires p < |m.order| && m.order[p] == at && to !in m.order
    modifies parent, queue
    ensures Mirrors(Discovery(m.order + [to], m.parents + [p]), parent[..size], queue[..tail + 1], size)
  {
    hide Mirrors;
    MirrorsDiscovery(m, parent[..size], queue[..tail], size, p, to);
    ghost var wantParent, wantQueue := parent[..size][to := at], queue[..tail] + [to];
    parent[to] := at;
    queue[tail] := to;
    assert parent[..size] == wantParent;
    assert queue[..tail + 1] == wantQueue;
  }

  /** One expansion of the native search: every transition is looked at once. */
  method ExpandNative(n: Native, arch: string, profile: string, at: nat, parent: array<int>, queue: array<nat>,
                      tail0: nat, ghost d: Discovery, ghost p: nat, ghost start: nat)
    returns (tail: nat)
    requires n.Valid() && parent as object != queue as object
    requires parent.Length == MAX_RELEASES && queue.Length == MAX_RELEASES
    requires tail0 <= |n.releases|
    requires Scanning(GraphOf(n, arch, profile), start, d, p, []) && d.order[p] == at
    requires Mirrors(d, parent[..|n.releases|], queue[..tail0], |n.releases|)
    modifies parent, queue
    ensures tail0 <= tail <= |n.releases|
    ensures Mirrors(Scan(d, p, at, GraphOf(n, arch, profile).edges), parent[..|n.releases|], queue[..tail], |n.releases|)
  {
    hide Scanning, Mirrors, Scan, Admitted;
    tail := tail0;
    ghost var size := |n.releases|;
    ScanBound(n, arch, profile, start, d, p, 0);
    assert n.edges[..0] == [];
    ScanEmpty(n, arch, profile, d, p);
    for i := 0 to |n.edges|
      invariant tail0 <= tail <= size
      invariant Mirrors(Scan(d, p, at, Admitted(n.releases, n.edges[..i], arch, profile)), parent[..size], queue[..tail], size)
    {
      tail := LookAt(n, arch, profile, at, parent, queue, tail, i, d, p, start);
    }
    assert n.edges[..|n.edges|] == n.edges;
  }

  /** One transition: it discovers its target when it is admitted, starts here and leads somewhere new. */
  method LookAt(n: Native, arch: string, profile: string, at: nat, parent: array<int>, queue: array<nat>, tail0: nat, i: nat,
                ghost d: Discovery, ghost p: nat, ghost start: nat)
    returns (tail: nat)
    requires n.Valid() && parent as object != queue as object && i < |n.edges|
    requires parent.Length == MAX_RELEASES && queue.Length == MAX_RELEASES && tail0 <= |n.releases|
    requires Scanning(GraphOf(n, arch, profile), start, d, p, []) && d.order[p] == at
    requires Mirrors(Scan(d, p, at, Admitted(n.releases, n.edges[..i], arch, profile)), parent[..|n.releases|], queue[..tail0], |n.releases|)
    modifies parent, queue
    ensures tail0 <= tail <= |n.releases|
    ensures Mirrors(Scan(d, p, at, Admitted(n.releases, n.edges[..i + 1], arch, profile)), parent[..|n.releases|], queue[..tail],
                    |n.releases|)
  {
    hide Scanning, Mirrors, Scan, Admitted, GraphOf, Admits;
    tail := tail0;
    ghost var size := |n.releases|;
    var e := n.edges[i];
    ghost var m := Scan(d, p, at, Admitted(n.releases, n.edges[..i], arch, profile));
    NextDiscovery(n, arch, profile, start, d, p, i, parent[..size], queue[..tail]);
    assert parent[..size][e.to] == parent[e.to];
    if Admits(n.releases, e, arch, profile) && e.from == at && parent[e.to] < 0 {
      Discover(parent, queue, tail, at, e.to, m, p, size);
      tail := tail + 1;
    }
  }

  /** Whether the next transition discovers something can be seen from the parents, and the queue has room for it. */
  lemma NextDiscovery(n: Native, arch: string, profile: string, start: nat, d: Discovery, p: nat, i: nat, parent: seq<int>, queue: seq<nat>)
    requires n.Valid() && i < |n.edges| && Scanning(GraphOf(n, arch, profile), start, d, p, [])
    requires Mirrors(Scan(d, p, d.order[p], Admitted(n.releases, n.edges[..i], arch, profile)), parent, queue, |n.releases|)
    ensures
      var e, m := n.edges[i], Scan(d, p, d.order[p], Admitted(n.releases, n.edges[..i], arch, profile));
      var more := Scan(d, p, d.order[p], Admitted(n.releases, n.edges[..i + 1], arch, profile));
      && p < |m.order| && m.order[p] == d.order[p] && |queue| == |m.order| && |parent| == |n.releases| && e.to < |n.releases|
      && if Admits(n.releases, e, arch, profile) && e.from == d.order[p] && parent[e.to] < 0
         then e.to !in m.order && |queue| < |n.releases| && more == Discovery(m.order + [e.to], m.parents + [p])
         else more == m
  {
    hide Scanning, Mirrors, Scan, Admitted, GraphOf, Admits;
    ScanBound(n, arch, profile, start, d, p, i);
    ScanBound(n, arch, profile, start, d, p, i + 1);
    ScanNext(n, arch, profile, d, p, i);
    MirrorsFacts(Scan(d, p, d.order[p], Admitted(n.releases, n.edges[..i], arch, profile)), parent, queue, |n.releases|);
  }

  lemma ScanEmpty(n: Native, arch: string, profile: string, d: Discovery, p: nat)
    requires n.Valid() && p < |d.order|
    ensures Scan(d, p, d.order[p], Admitted(n.releases, [], arch, profile)) == d
  {
  }

  lemma MirrorsFacts(d: Discovery, parent: seq<int>, queue: seq<nat>, n: nat)
    requires Mirrors(d, parent, queue, n)
    ensures |queue| == |d.order| && |parent| == n
    ensures forall v :: 0 <= v < n ==> (parent[v] < 0 <==> v !in d.order)
    ensures queue == d.order && Shape(d) && d.parents[0] == 0
    ensures forall k :: 0 <= k < |d.order| ==> d.order[k] < n && parent[d.order[k]] == d.order[d.parents[k]]
  {
  }

  /** Walking the parents back from a discovered node spells its path in reverse. */
  function Reverse(s: seq<nat>): (r: seq<nat>)
    ensures |r| == |s|
    ensures forall k :: 0 <= k < |s| ==> r[k] == s[|s| - 1 - k]
  {
    if s == [] then [] else Reverse(s[1..]) + [s[0]]
  }

  /** The parents followed from the target back to the start. */
  method WalkBack(ghost d: Discovery, parent: array<int>, start: nat, target: nat, ghost n: nat, ghost q: nat)
    returns (reversed: array<nat>, count: nat)
    requires n <= parent.Length && parent.Length == MAX_RELEASES
    requires Mirrors(d, parent[..n], d.order, n) && Distinct(d.order) && d.order[0] == start
    requires q < |d.order| && d.order[q] == target && |d.order| <= n
    ensures fresh(reversed) && reversed.Length == MAX_RELEASES && count <= q
    ensures Reverse(reversed[..count]) == Path(d, q)
  {
    hide Mirrors, Reverse, Path, Distinct;
    reversed := new nat[MAX_RELEASES];
    count := 0;
    MirrorsFacts(d, parent[..n], d.order, n);
    assert reversed[..0] == [];
    AtTheStart(d, start);
    var at := target;
    ghost var k := q;
    while at != start
      invariant 0 <= k <= q && d.order[k] == at
      invariant count + k <= q
      invariant Path(d, q) == Path(d, k) + Reverse(reversed[..count])
      decreases k
    {
      StepBack(d, parent[..n], n, k);
      ghost var spelled := reversed[..count];
      reversed[count] := at;
      assert reversed[..count + 1] == spelled + [at];
      ReverseSnoc(spelled, at);
      count := count + 1;
      assert parent[..n][at] == parent[at];
      at := parent[at];
      k := d.parents[k];
    }
    OnlyOneStart(d, k);
  }

  lemma AtTheStart(d: Discovery, start: nat)
    requires Shape(d)
    ensures Path(d, 0) == [] && Reverse([]) == []
  {
  }

  lemma OnlyOneStart(d: Discovery, k: nat)
    requires Distinct(d.order) && k < |d.order| && d.order[k] == d.order[0]
    ensures k == 0
  {
  }

  /** One parent back is one position back on the path. */
  lemma StepBack(d: Discovery, parent: seq<int>, n: nat, k: nat)
    requires Mirrors(d, parent, d.order, n) && k < |d.order| && d.order[k] != d.order[0]
    ensures d.parents[k] < k && d.order[k] < n && parent[d.order[k]] == d.order[d.parents[k]]
    ensures Path(d, k) == Path(d, d.parents[k]) + [d.order[k]]
  {
  }

  lemma {:induction false} ReverseSnoc(s: seq<nat>, x: nat)
    ensures Reverse(s + [x]) == [x] + Reverse(s)
  {
    if s != [] {
      assert (s + [x])[1..] == s[1..] + [x];
      ReverseSnoc(s[1..], x);
    }
  }

  /** The native search: stops as soon as the target has a parent. */
  method SearchNative(n: Native, start: nat, target: nat, arch: string, profile: string)
    returns (parent: array<int>, found: bool, ghost head: nat)
    requires n.Valid() && start < |n.releases| && target < |n.releases|
    ensures fresh(parent) && parent.Length == MAX_RELEASES
    ensures
      var g := GraphOf(n, arch, profile);
      var d := Expanded(g, start, head);
      if found then target in d.order && Mirrors(d, parent[..|n.releases|], d.order, |n.releases|)
      else Route(g, start, target) == None
  {
    hide Scan, Path, Explored, Admitted, Scanning, Mirrors, Expanded, GraphOf, Route;
    var size := |n.releases|;
    var queue: array<nat>;
    parent, queue := BeginSearch(n, start);
    var tail := 1;
    head := 0;
    ghost var g := GraphOf(n, arch, profile);
    ghost var d := Discovery([start], [0]);
    ExpandedAt(g, start, 0);
    var next := 0;
    while next < tail && parent[target] < 0
      invariant 0 <= next <= tail <= size
      invariant d == Expanded(g, start, next) && Mirrors(d, parent[..size], queue[..tail], size)
      decreases size - next
    {
      ReadyToExpand(g, start, next, parent[..size], queue[..tail]);
      var at := queue[next];
      assert at == queue[..tail][next];
      tail := ExpandNative(n, arch, profile, at, parent, queue, tail, d, next, start);
      d := Expanded(g, start, next + 1);
      next := next + 1;
    }
    head := next;
    found := parent[target] >= 0;
    assert parent[..size][target] == parent[target];
    SearchEnded(g, start, target, head, parent[..size], queue[..tail]);
  }

  /** The queue's next entry is the discovery's next position. */
  lemma ReadyToExpand(g: Graph, start: nat, next: nat, parent: seq<int>, queue: seq<nat>)
    requires g.Valid() && start < g.n && next < |queue| && Mirrors(Expanded(g, start, next), parent, queue, g.n)
    ensures
      var d := Expanded(g, start, next);
      && next < |d.order| && queue[next] == d.order[next] && Scanning(g, start, d, next, [])
      && Expanded(g, start, next + 1) == Scan(d, next, d.order[next], g.edges)
  {
    hide Scan, Path, Explored, Scanning, Mirrors, Expanded;
    MirrorsFacts(Expanded(g, start, next), parent, queue, g.n);
    ExpandedExplored(g, start, next);
    BeginScan(g, start, Expanded(g, start, next), next);
    ExpandedAt(g, start, next);
  }

  /** A search that ran out of queue or met its target has its answer. */
  lemma SearchEnded(g: Graph, start: nat, target: nat, head: nat, parent: seq<int>, queue: seq<nat>)
    requires g.Valid() && start < g.n && target < g.n && Mirrors(Expanded(g, start, head), parent, queue, g.n)
    requires |parent| == g.n && (head >= |queue| || parent[target] >= 0)
    ensures
      var d := Expanded(g, start, head);
      if parent[target] >= 0 then target in d.order && Mirrors(d, parent, d.order, g.n) else Route(g, start, target) == None
  {
    hide Scan, Path, Explored, Scanning, Mirrors, Expanded, Route;
    MirrorsFacts(Expanded(g, start, head), parent, queue, g.n);
    if parent[target] < 0 {
      NoRoute(g, start, head, target);
    }
  }

  /** Only the start has a parent, itself, and only the start is queued. */
  method BeginSearch(n: Native, start: nat) returns (parent: array<int>, queue: array<nat>)
    requires n.Valid() && start < |n.releases|
    ensures fresh(parent) && fresh(queue) && parent as object != queue as object
    ensures parent.Length == MAX_RELEASES && queue.Length == MAX_RELEASES
    ensures Mirrors(Discovery([start], [0]), parent[..|n.releases|], queue[..1], |n.releases|)
  {
    hide Mirrors;
    parent := new int[MAX_RELEASES](_ => -1);
    queue := new nat[MAX_RELEASES](_ => 0);
    parent[start] := start;
    queue[0] := start;
    assert queue[..1] == [start];
    MirrorsStart(start, parent[..|n.releases|], |n.releases|);
  }

  lemma ExpandedAt(g: Graph, start: nat, k: nat)
    ensures Expanded(g, start, 0) == Discovery([start], [0])
    ensures k < |Expanded(g, start, k).order| ==>
              Expanded(g, start, k + 1) == Scan(Expanded(g, start, k), k, Expanded(g, start, k).order[k], g.edges)
  {
    hide Scan;
  }

  lemma MirrorsStart(start: nat, parent: seq<int>, n: nat)
    requires |parent| == n && start < n && parent[start] == start
    requires forall v :: 0 <= v < n && v != start ==> parent[v] == -1
    ensures Mirrors(Discovery([start], [0]), parent, [start], n)
  {
  }

  /** The releases of a path that was spelled backwards. */
  method Spell(n: Native, reversed: array<nat>, count: nat, ghost path: seq<nat>) returns (result: seq<Release>)
    requires count <= reversed.Length && Reverse(reversed[..count]) == path
    requires forall k :: 0 <= k < |path| ==> path[k] < |n.releases|
    ensures result == Pick(n.releases, path)
  {
    result := [];
    for i := 0 to count
      invariant |result| == i
      invariant forall k :: 0 <= k < i ==> result[k] == n.releases[path[k]]
    {
      assert reversed[..count][count - i - 1] == reversed[count - i - 1];
      assert path[i] == reversed[count - i - 1];
      result := result + [n.releases[reversed[count - i - 1]]];
    }
    assert result == Pick(n.releases, path);
  }

  /** l4_catalog_route */
  method RouteNative(n: Native, current: string, manifest: Digest, requested: string, arch: string, profile: string)
    returns (r: Option<seq<Release>>)
    requires n.Valid()
    ensures r == if ArchOk(arch) && ProfileOk(profile)
                 then RouteOf(n, current, manifest, requested, arch, profile) else None
  {
    hide ProfileOk, Scan, Path, Explored, Find, Mirrors, Expanded, Admitted;
    if !ArchOk(arch) || !ProfileOk(profile) {
      return None;
    }
    var start, target := Find(n.releases, current), Target(n, requested);
    if start < 0 || target < 0 || n.releases[target].revoked || n.releases[start].manifest != manifest {
      return None;
    }
    ghost var g := GraphOf(n, arch, profile);
    var parent, found;
    ghost var head;
    parent, found, head := SearchNative(n, start, target, arch, profile);
    if !found {
      return None;
    }
    ghost var d := Expanded(g, start, head);
    ghost var q := Position(d.order, target);
    RouteAt(g, start, head, q, target);
    ExploredFacts(g, start, d, head);
    var reversed, count := WalkBack(d, parent, start, target, |n.releases|, q);
    RouteSound(g, start, target);
    WalkInside(g, start, Path(d, q));
    var result := Spell(n, reversed, count, Path(d, q));
    return Some(result);
  }

  lemma ExploredFacts(g: Graph, start: nat, d: Discovery, k: nat)
    requires g.Valid() && start < g.n && d == Expanded(g, start, k)
    ensures Distinct(d.order) && |d.order| > 0 && d.order[0] == start && |d.order| <= g.n
  {
    hide Scan;
    ExpandedExplored(g, start, k);
    QueueBound(g, start, k);
  }

  // ------------------------------------------------------------- document router

  function Names(rs: seq<Release>, path: seq<nat>): (r: seq<string>)
    requires forall k :: 0 <= k < |path| ==> path[k] < |rs|
    ensures |r| == |path| && forall k :: 0 <= k < |path| ==> r[k] == rs[path[k]].version
  {
    seq(|path|, k requires 0 <= k < |path| => rs[path[k]].version)
  }

  ghost predicate Inside(d: Discovery, n: nat) {
    Shape(d) && forall k :: 0 <= k < |d.order| ==> d.order[k] < n
  }

  lemma {:induction false} PathInside(d: Discovery, n: nat, k: nat)
    requires Inside(d, n) && k < |d.order|
    ensures forall i :: 0 <= i < |Path(d, k)| ==> Path(d, k)[i] < n
    decreases k
  {
    if k > 0 {
      PathInside(d, n, d.parents[k]);
    }
  }

  /** The names on the way to the k-th discovered release. */
  ghost function PathNames(rs: seq<Release>, d: Discovery, k: nat): seq<string>
    requires Inside(d, |rs|) && k < |d.order|
  {
    PathInside(d, |rs|, k);
    Names(rs, Path(d, k))
  }

  /** The queue of whole paths and the visited names against the discovery. */
  ghost predicate Follows(rs: seq<Release>, d: Discovery, from: nat, queue: seq<(string, seq<string>)>, visited: set<string>) {
    && Inside(d, |rs|) && from <= |d.order|
    && |queue| == |d.order| - from
    && (forall k :: from <= k < |d.order| ==> queue[k - from] == (rs[d.order[k]].version, PathNames(rs, d, k)))
    && (forall v :: v in visited <==> exists k :: 0 <= k < |d.order| && rs[d.order[k]].version == v)
  }

  lemma PathNamesExtend(rs: seq<Release>, d: Discovery, p: nat, to: nat, k: nat)
    requires Inside(d, |rs|) && p < |d.order| && to < |rs| && k <= |d.order|
    ensures
      var d' := Discovery(d.order + [to], d.parents + [p]);
      && Inside(d', |rs|)
      && PathNames(rs, d', k) == if k < |d.order| then PathNames(rs, d, k) else PathNames(rs, d, p) + [rs[to].version]
  {
    var d' := Discovery(d.order + [to], d.parents + [p]);
    if k < |d.order| {
      PathStable(d, d', k);
    } else {
      PathStable(d, d', p);
      assert Path(d', k) == Path(d, p) + [to];
    }
  }

  lemma FollowsDiscovery(rs: seq<Release>, d: Discovery, from: nat, queue: seq<(string, seq<string>)>, visited: set<string>,
                         p: nat, to: nat)
    requires Follows(rs, d, from, queue, visited) && p < |d.order| && to < |rs|
    ensures Follows(rs, Discovery(d.order + [to], d.parents + [p]), from,
                    queue + [(rs[to].version, PathNames(rs, d, p) + [rs[to].version])], visited + {rs[to].version})
  {
    hide PathNames;
    var d' := Discovery(d.order + [to], d.parents + [p]);
    forall k | from <= k < |d'.order|
      ensures Inside(d', |rs|)
      ensures (queue + [(rs[to].version, PathNames(rs, d, p) + [rs[to].version])])[k - from] ==
              (rs[d'.order[k]].version, PathNames(rs, d', k))
    {
      PathNamesExtend(rs, d, p, to, k);
    }
    PathNamesExtend(rs, d, p, to, 0);
    forall v
      ensures v in visited + {rs[to].version} <==> exists k :: 0 <= k < |d'.order| && rs[d'.order[k]].version == v
    {
      if v in visited {
        var k :| 0 <= k < |d.order| && rs[d.order[k]].version == v;
        assert d'.order[k] == d.order[k];
      }
      assert rs[d'.order[|d.order|]].version == rs[to].version;
    }
  }

  lemma UniqueName(rs: seq<Release>, i: nat, j: nat)
    requires UniqueVersions(rs) && i < |rs| && j < |rs| && rs[i].version == rs[j].version
    ensures i == j
  {
  }

  lemma Visited(rs: seq<Release>, d: Discovery, from: nat, queue: seq<(string, seq<string>)>, visited: set<string>, v: nat)
    requires Follows(rs, d, from, queue, visited) && UniqueVersions(rs) && v < |rs|
    ensures rs[v].version in visited <==> v in d.order
  {
    if rs[v].version in visited {
      var k :| 0 <= k < |d.order| && rs[d.order[k]].version == rs[v].version;
      UniqueName(rs, d.order[k], v);
    }
    if v in d.order {
      var k :| 0 <= k < |d.order| && d.order[k] == v;
    }
  }

  /** One popped entry: its edges in document order. */
  method ExpandDocument(c: Catalog, known: map<string, Release>, version: string, path: seq<string>,
                        queue0: seq<(string, seq<string>)>, visited0: set<string>, arch: string, profile: string,
                        ghost d: Discovery, ghost p: nat, ghost start: nat)
    returns (queue: seq<(string, seq<string>)>, visited: set<string>)
    requires WellFormed(c)
    requires forall v: string :: v in known <==> Find(c.releases, v) >= 0
    requires forall v: string :: v in known ==> known[v] == c.releases[Find(c.releases, v)]
    requires Scanning(GraphOf(ToNative(c), arch, profile), start, d, p, [])
    requires Follows(c.releases, d, p + 1, queue0, visited0)
    requires p < |d.order| && version == c.releases[d.order[p]].version && path == PathNames(c.releases, d, p)
    ensures Follows(c.releases, Scan(d, p, d.order[p], GraphOf(ToNative(c), arch, profile).edges), p + 1, queue, visited)
  {
    hide Scanning, Follows, Scan, Admitted, PathNames, Find, Inside, ReleaseOk, StableOk, ArchOk, ProfileOk, DigestOk;
    queue, visited := queue0, visited0;
    ghost var n, rs := ToNative(c), c.releases;
    FollowsInside(rs, d, p + 1, queue0, visited0);
    ScanEmpty(n, arch, profile, d, p);
    assert n.edges[..0] == [];
    for i := 0 to |c.transitions|
      invariant Follows(rs, Scan(d, p, d.order[p], Admitted(rs, n.edges[..i], arch, profile)), p + 1, queue, visited)
    {
      queue, visited := FollowEdge(c, known, version, path, queue, visited, arch, profile, i, n, d, p, start);
    }
    assert n.edges[..|n.edges|] == n.edges;
  }

  /** One transition of the document: an admitted one from here to a new version extends the path. */
  method FollowEdge(c: Catalog, known: map<string, Release>, version: string, path: seq<string>,
                    queue0: seq<(string, seq<string>)>, visited0: set<string>, arch: string, profile: string, i: nat,
                    ghost n: Native, ghost d: Discovery, ghost p: nat, ghost start: nat)
    returns (queue: seq<(string, seq<string>)>, visited: set<string>)
    requires n.Valid() && n.releases == c.releases && i < |n.edges| == |c.transitions|
    requires Scanning(GraphOf(n, arch, profile), start, d, p, [])
    requires Inside(d, |c.releases|) && p < |d.order| && d.order[p] < |c.releases|
    requires version == c.releases[d.order[p]].version && path == PathNames(c.releases, d, p)
    requires Follows(n.releases, Scan(d, p, d.order[p], Admitted(n.releases, n.edges[..i], arch, profile)), p + 1, queue0, visited0)
    requires forall v: string :: v in known <==> Find(c.releases, v) >= 0
    requires forall v: string :: v in known ==> known[v] == c.releases[Find(c.releases, v)]
    requires WellFormed(c) && n == ToNative(c)
    ensures Follows(n.releases, Scan(d, p, d.order[p], Admitted(n.releases, n.edges[..i + 1], arch, profile)), p + 1, queue, visited)
  {
    hide Scanning, Follows, Scan, Admitted, PathNames, Find, Inside, ReleaseOk, StableOk, ArchOk, ProfileOk, DigestOk, GraphOf;
    queue, visited := queue0, visited0;
    ghost var rs := c.releases;
    var edge := c.transitions[i];
    var to := edge.to;
    ghost var m := Scan(d, p, d.order[p], Admitted(rs, n.edges[..i], arch, profile));
    ghost var t := Find(rs, to);
    ScanNext(n, arch, profile, d, p, i);
    ScanBound(n, arch, profile, start, d, p, i);
    Visited(rs, m, p + 1, queue, visited, t);
    SameNode(rs, edge.from, d.order[p]);
    if edge.from == version && edge.arch == arch && edge.profile == profile && !known[to].revoked && to !in visited {
      FollowsInside(rs, m, p + 1, queue, visited);
      PathNamesStable(rs, d, m, p);
      FollowsDiscovery(rs, m, p + 1, queue, visited, p, t);
      visited := visited + {to};
      queue := queue + [(to, path + [to])];
    }
  }

  lemma SameNode(rs: seq<Release>, v: string, node: nat)
    requires UniqueVersions(rs) && Find(rs, v) >= 0 && node < |rs|
    ensures Find(rs, v) == node <==> v == rs[node].version
  {
  }

  lemma FollowsInside(rs: seq<Release>, d: Discovery, from: nat, queue: seq<(string, seq<string>)>, visited: set<string>)
    requires Follows(rs, d, from, queue, visited)
    ensures Inside(d, |rs|) && from <= |d.order|
    ensures forall k :: 0 <= k < |d.order| ==> d.order[k] < |rs|
  {
  }

  lemma PathNamesStable(rs: seq<Release>, d: Discovery, m: Discovery, p: nat)
    requires Inside(d, |rs|) && Inside(m, |rs|) && d.order <= m.order && d.parents <= m.parents && p < |d.order|
    ensures PathNames(rs, d, p) == PathNames(rs, m, p)
  {
    PathStable(d, m, p);
  }

  /** The popping loop: the first popped entry with the wanted version is the answer. */
  method SearchDocument(c: Catalog, known: map<string, Release>, current: string, target: string, arch: string, profile: string)
    returns (found: bool, path: seq<string>)
    requires WellFormed(c)
    requires forall v: string :: v in known <==> Find(c.releases, v) >= 0
    requires forall v: string :: v in known ==> known[v] == c.releases[Find(c.releases, v)]
    requires current in known && target in known
    ensures
      var g := GraphOf(ToNative(c), arch, profile);
      var r := Route(g, Find(c.releases, current), Find(c.releases, target));
      && (found <==> r.Some?)
      && (found ==> (forall k :: 0 <= k < |r.value| ==> r.value[k] < |c.releases|) && path == Names(c.releases, r.value))
  {
    hide Scan, Path, Explored, Scanning, Expanded, GraphOf, Route, Follows, PathNames, Inside, Find, WellFormed;
    ghost var n, rs := ToNative(c), c.releases;
    ghost var g, start, goal := GraphOf(n, arch, profile), Find(rs, current), Find(rs, target);
    var queue: seq<(string, seq<string>)> := [(current, [])];
    var visited := {current};
    path := [];
    ghost var k, d := 0, Expanded(g, start, 0);
    ExpandedAt(g, start, 0);
    FollowsStart(rs, start);
    assert UniqueVersions(rs) by { Unfold(c); }
    while queue != []
      invariant d == Expanded(g, start, k)
      invariant Follows(rs, d, k, queue, visited)
      invariant forall j :: 0 <= j < k && j < |d.order| ==> d.order[j] != goal
      decreases |rs| - k
    {
      FollowsHead(rs, d, k, queue, visited);
      QueueBound(g, start, k);
      var (version, way) := queue[0];
      queue := queue[1..];
      SameNode(rs, target, d.order[k]);
      if version == target {
        RouteAt(g, start, k, k, goal);
        RouteInside(g, start, goal);
        NamesOfPath(rs, d, k);
        return true, way;
      }
      ExpandedExplored(g, start, k);
      BeginScan(g, start, d, k);
      ghost var before := d;
      queue, visited := ExpandDocument(c, known, version, way, queue, visited, arch, profile, d, k, start);
      ExpandedAt(g, start, k);
      ExpandedGrows(g, start, k, k + 1);
      d := Expanded(g, start, k + 1);
      k := k + 1;
    }
    FollowsEnd(rs, d, k, queue, visited);
    assert goal !in d.order;
    NoRoute(g, start, k, goal);
    return false, path;
  }

  lemma Unfold(c: Catalog)
    requires WellFormed(c)
    ensures UniqueVersions(c.releases)
  {
  }

  lemma FollowsStart(rs: seq<Release>, start: nat)
    requires start < |rs|
    ensures Follows(rs, Discovery([start], [0]), 0, [(rs[start].version, [])], {rs[start].version})
  {
    var d := Discovery([start], [0]);
    assert d.order[0] == start;
    assert Path(d, 0) == [];
    assert PathNames(rs, d, 0) == [];
    assert rs[d.order[0]].version == rs[start].version;
  }

  lemma FollowsHead(rs: seq<Release>, d: Discovery, k: nat, queue: seq<(string, seq<string>)>, visited: set<string>)
    requires Follows(rs, d, k, queue, visited) && queue != []
    ensures k < |d.order| && d.order[k] < |rs| && Inside(d, |rs|)
    ensures queue[0] == (rs[d.order[k]].version, PathNames(rs, d, k))
    ensures Follows(rs, d, k + 1, queue[1..], visited)
  {
    hide PathNames;
  }

  lemma FollowsEnd(rs: seq<Release>, d: Discovery, k: nat, queue: seq<(string, seq<string>)>, visited: set<string>)
    requires Follows(rs, d, k, queue, visited) && queue == []
    ensures k == |d.order|
  {
  }

  lemma NamesOfPath(rs: seq<Release>, d: Discovery, k: nat)
    requires Inside(d, |rs|) && k < |d.order|
    ensures Shape(d) && (forall i :: 0 <= i < |Path(d, k)| ==> Path(d, k)[i] < |rs|)
    ensures PathNames(rs, d, k) == Names(rs, Path(d, k))
  {
    PathInside(d, |rs|, k);
  }

  lemma RouteInside(g: Graph, start: nat, target: nat)
    requires g.Valid() && start < g.n && Route(g, start, target).Some?
    ensures forall k :: 0 <= k < |Route(g, start, target).value| ==> Route(g, start, target).value[k] < g.n
  {
    hide Route;
    RouteSound(g, start, target);
    WalkInside(g, start, Route(g, start, target).value);
  }

  /** route of l4release/catalog.py */
  method RouteDocument(c: Catalog, current: string, manifest: Digest, requested: string, arch: string, profile: string)
    returns (r: Option<seq<Release>>)
    requires WellFormed(c)
    ensures r == RouteOf(ToNative(c), current, manifest, requested, arch, profile)
  {
    hide GraphOf, Route, Find, ReleaseOk, TransitionOk, UniqueTransitions;
    var ok, known := CollectReleases(c.releases);
    if requested == "latest" && c.stable.None? {
      return None;
    }
    var target := if requested == "latest" then c.stable.value else requested;
    if current !in known || known[current].manifest != manifest {
      return None;
    }
    if target !in known || known[target].revoked {
      return None;
    }
    var found, path := SearchDocument(c, known, current, target, arch, profile);
    if !found {
      return None;
    }
    ghost var g := GraphOf(ToNative(c), arch, profile);
    ghost var nodes := Route(g, Find(c.releases, current), Find(c.releases, target)).value;
    var result := ReadNames(c.releases, known, path, nodes);
    return Some(result);
  }

  /** The pinned releases of a path of names. */
  method ReadNames(rs: seq<Release>, known: map<string, Release>, path: seq<string>, ghost nodes: seq<nat>)
    returns (result: seq<Release>)
    requires UniqueVersions(rs)
    requires forall v: string :: v in known <==> Find(rs, v) >= 0
    requires forall v: string :: v in known ==> known[v] == rs[Find(rs, v)]
    requires (forall k :: 0 <= k < |nodes| ==> nodes[k] < |rs|) && path == Names(rs, nodes)
    ensures result == Pick(rs, nodes)
  {
    hide Find;
    result := [];
    for i := 0 to |path|
      invariant |result| == i
      invariant forall k :: 0 <= k < i ==> result[k] == rs[nodes[k]]
    {
      Known(rs, nodes[i]);
      result := result + [known[path[i]]];
    }
    assert result == Pick(rs, nodes);
  }

  lemma Known(rs: seq<Release>, i: nat)
    requires UniqueVersions(rs) && i < |rs|
    ensures Find(rs, rs[i].version) == i
  {
  }

  // ------------------------------------------------------------- main results

  predicate Permits(c: Catalog, t: Transition, arch: string, profile: string) {
    t.arch == arch && t.profile == profile &&
    Find(c.releases, t.to) >= 0 && !c.releases[Find(c.releases, t.to)].revoked
  }

  /** A chain of permitted transitions of the document from the installed version. */
  ghost predicate AdmittedChain(c: Catalog, arch: string, profile: string, current: string, names: seq<string>)
    decreases |names|
  {
    names == [] ||
    (AdmittedChain(c, arch, profile, current, names[..|names| - 1]) &&
     exists k :: 0 <= k < |c.transitions| && Permits(c, c.transitions[k], arch, profile) &&
                 c.transitions[k].from == LastName(current, names[..|names| - 1]) &&
                 c.transitions[k].to == names[|names| - 1])
  }

  function LastName(current: string, names: seq<string>): string {
    if names == [] then current else names[|names| - 1]
  }

  function RequestedName(c: Catalog, requested: string): Option<string> {
    if requested == "latest" then c.stable else Some(requested)
  }

  lemma EdgeOfTransition(c: Catalog, arch: string, profile: string, a: nat, b: nat)
    requires WellFormed(c) && a < |c.releases| && b < |c.releases|
    ensures Edge(a, b) in GraphOf(ToNative(c), arch, profile).edges <==>
            exists k :: 0 <= k < |c.transitions| && Permits(c, c.transitions[k], arch, profile) &&
                        c.transitions[k].from == c.releases[a].version && c.transitions[k].to == c.releases[b].version
  {
    hide Admitted, ReleaseOk, StableOk, ArchOk, ProfileOk, DigestOk, UniqueTransitions;
    var n := ToNative(c);
    AdmittedContains(c.releases, n.edges, arch, profile, Edge(a, b));
    forall k | 0 <= k < |c.transitions|
      ensures Admits(c.releases, n.edges[k], arch, profile) && Edge(a, b) == Edge(n.edges[k].from, n.edges[k].to) <==>
              Permits(c, c.transitions[k], arch, profile) && c.transitions[k].from == c.releases[a].version &&
              c.transitions[k].to == c.releases[b].version
    {
      SameNode(c.releases, c.transitions[k].from, a);
      SameNode(c.releases, c.transitions[k].to, b);
    }
  }

  lemma {:induction false} WalkToChain(c: Catalog, arch: string, profile: string, start: nat, path: seq<nat>)
    requires WellFormed(c) && start < |c.releases| && Walk(GraphOf(ToNative(c), arch, profile), start, path)
    requires forall k :: 0 <= k < |path| ==> path[k] < |c.releases|
    ensures AdmittedChain(c, arch, profile, c.releases[start].version, Names(c.releases, path))
    ensures LastName(c.releases[start].version, Names(c.releases, path)) == c.releases[End(start, path)].version
    decreases |path|
  {
    hide WellFormed, Permits;
    if path != [] {
      var front := path[..|path| - 1];
      WalkToChain(c, arch, profile, start, front);
      assert Names(c.releases, path)[..|path| - 1] == Names(c.releases, front);
      EdgeOfTransition(c, arch, profile, End(start, front), path[|path| - 1]);
    }
  }

  lemma {:induction false} ChainToWalk(c: Catalog, arch: string, profile: string, start: nat, names: seq<string>)
    returns (path: seq<nat>)
    requires WellFormed(c) && start < |c.releases|
    requires AdmittedChain(c, arch, profile, c.releases[start].version, names)
    ensures Walk(GraphOf(ToNative(c), arch, profile), start, path) && |path| == |names|
    ensures forall k :: 0 <= k < |path| ==> path[k] < |c.releases|
    ensures c.releases[End(start, path)].version == LastName(c.releases[start].version, names)
    decreases |names|
  {
    hide WellFormed, Find, Permits, GraphOf;
    if names == [] {
      path := [];
    } else {
      var front := ChainToWalk(c, arch, profile, start, names[..|names| - 1]);
      var k :| 0 <= k < |c.transitions| && Permits(c, c.transitions[k], arch, profile) &&
               c.transitions[k].from == LastName(c.releases[start].version, names[..|names| - 1]) &&
               c.transitions[k].to == names[|names| - 1];
      var b := Find(c.releases, c.transitions[k].to);
      KnownTarget(c, c.transitions[k]);
      EdgeOfTransition(c, arch, profile, End(start, front), b);
      path := front + [b];
      assert path[..|path| - 1] == front;
    }
  }

  lemma KnownTarget(c: Catalog, t: Transition)
    requires WellFormed(c) && t in c.transitions
    ensures 0 <= Find(c.releases, t.to) < |c.releases| && c.releases[Find(c.releases, t.to)].version == t.to
  {
    hide Find;
    var k :| 0 <= k < |c.transitions| && c.transitions[k] == t;
    assert TransitionOk(c.releases, c.transitions[k]);
  }

  function Versions(rs: seq<Release>): (r: seq<string>)
    ensures |r| == |rs| && forall k :: 0 <= k < |rs| ==> r[k] == rs[k].version
  {
    seq(|rs|, k requires 0 <= k < |rs| => rs[k].version)
  }

  /**
   Every route is sound: catalog releases, none revoked, linked by permitted transitions of
   that platform from the installed release (whose root digest matches) to the requested one.
   */
  lemma RoutesAreSound(c: Catalog, current: string, manifest: Digest, requested: string, arch: string, profile: string)
    requires WellFormed(c) && RouteOf(ToNative(c), current, manifest, requested, arch, profile).Some?
    ensures
      var rs := RouteOf(ToNative(c), current, manifest, requested, arch, profile).value;
      && |rs| < |c.releases|
      && (forall k :: 0 <= k < |rs| ==> rs[k] in c.releases && !rs[k].revoked)
      && AdmittedChain(c, arch, profile, current, Versions(rs))
      && RequestedName(c, requested) == Some(LastName(current, Versions(rs)))
      && Find(c.releases, current) >= 0 && c.releases[Find(c.releases, current)].manifest == manifest
  {
    hide Route, GraphOf, Walk, AdmittedChain, WellFormed;
    StableFound(c);
    var n := ToNative(c);
    var g, start, target := GraphOf(n, arch, profile), Find(c.releases, current), Target(n, requested);
    var path := Route(g, start, target).value;
    RouteSound(g, start, target);
    RouteInside(g, start, target);
    WalkToChain(c, arch, profile, start, path);
    var rs := Pick(c.releases, path);
    assert Versions(rs) == Names(c.releases, path);
    WalkUnrevoked(c, arch, profile, start, path);
  }

  lemma StableFound(c: Catalog)
    requires WellFormed(c)
    ensures c.stable.Some? ==> Find(c.releases, c.stable.value) >= 0
  {
  }

  lemma {:induction false} WalkUnrevoked(c: Catalog, arch: string, profile: string, start: nat, path: seq<nat>)
    requires WellFormed(c) && start < |c.releases| && Walk(GraphOf(ToNative(c), arch, profile), start, path)
    ensures forall k :: 0 <= k < |path| ==> path[k] < |c.releases| && !c.releases[path[k]].revoked
    decreases |path|
  {
    hide WellFormed, Admitted;
    if path != [] {
      var n, front := ToNative(c), path[..|path| - 1];
      WalkUnrevoked(c, arch, profile, start, front);
      AdmittedContains(c.releases, n.edges, arch, profile, Edge(End(start, front), path[|path| - 1]));
      forall k | 0 <= k < |path| ensures path[k] < |c.releases| && !c.releases[path[k]].revoked {
        if k < |front| {
          assert path[k] == front[k];
        }
      }
    }
  }

  /**
   Routes are found whenever any permitted chain exists, and no permitted chain is shorter.
   */
  lemma RoutesAreCompleteAndShortest(c: Catalog, current: string, manifest: Digest, requested: string, arch: string,
                                     profile: string, names: seq<string>)
    requires WellFormed(c)
    requires Find(c.releases, current) >= 0 && c.releases[Find(c.releases, current)].manifest == manifest
    requires AdmittedChain(c, arch, profile, current, names)
    requires RequestedName(c, requested) == Some(LastName(current, names))
    requires names == [] ==> !c.releases[Find(c.releases, current)].revoked
    ensures
      var r := RouteOf(ToNative(c), current, manifest, requested, arch, profile);
      r.Some? && |r.value| <= |names|
  {
    hide Route, GraphOf, Walk, AdmittedChain, WellFormed;
    var n := ToNative(c);
    var g, start := GraphOf(n, arch, profile), Find(c.releases, current);
    var path := ChainToWalk(c, arch, profile, start, names);
    var target := End(start, path);
    WalkUnrevoked(c, arch, profile, start, path);
    StableFound(c);
    Unfold(c);
    Known(c.releases, target);
    assert Target(n, requested) == target;
    RouteCompleteAndShortest(g, start, target, path);
  }

  /**
   The native router refuses a malformed platform outright; the document router does not
   look at it.  They differ exactly when the platform is malformed and the requested release
   is the installed one.
   */
  lemma RoutersAgreeExactlyWhen(c: Catalog, current: string, manifest: Digest, requested: string, arch: string, profile: string)
    requires WellFormed(c)
    ensures
      var document := RouteOf(ToNative(c), current, manifest, requested, arch, profile);
      var native := if ArchOk(arch) && ProfileOk(profile) then document else None;
      native == document <==>
        ((ArchOk(arch) && ProfileOk(profile)) ||
         !(RequestedName(c, requested) == Some(current) && Find(c.releases, current) >= 0 &&
           c.releases[Find(c.releases, current)].manifest == manifest &&
           !c.releases[Find(c.releases, current)].revoked))
  {
    hide ArchOk, ProfileOk, AdmittedChain, Route, GraphOf, WellFormed;
    if !(ArchOk(arch) && ProfileOk(profile)) {
      var document := RouteOf(ToNative(c), current, manifest, requested, arch, profile);
      if document.Some? {
        RoutesAreSound(c, current, manifest, requested, arch, profile);
        MalformedPlatform(c, arch, profile, current, Versions(document.value));
        RoutesNotRevoked(c, current, manifest, requested, arch, profile);
      }
      if RequestedName(c, requested) == Some(current) && Find(c.releases, current) >= 0 &&
         c.releases[Find(c.releases, current)].manifest == manifest && !c.releases[Find(c.releases, current)].revoked {
        ChainOfNothing(c, arch, profile, current);
        RoutesAreCompleteAndShortest(c, current, manifest, requested, arch, profile, []);
      }
    }
  }

  const TinyDigest: Digest := seq(64, _ => '1')

  /** The smallest well-formed catalog. */
  const Tiny: Catalog := Catalog(1, 1, 2, None, [Release("1.0.0", TinyDigest, false)], [])

  lemma TinyParts()
    ensures Parts("1.0.0") == ["1", "0", "0"]
  {
    assert Parts("") == [""];
    assert ['0'] + "" == "0" && ['1'] + "" == "1";
    assert "0"[1..] == "" && Parts("0") == ["0"];
    assert ".0"[1..] == "0" && Parts(".0") == ["", "0"];
    assert "0.0"[1..] == ".0" && Parts("0.0") == ["0", "0"];
    assert ".0.0"[1..] == "0.0" && Parts(".0.0") == ["", "0", "0"];
    assert "1.0.0"[1..] == ".0.0";
  }

  lemma TinyVersion()
    ensures VersionOk("1.0.0")
  {
    hide Parts;
    TinyParts();
    assert Value("") == 0 && "1"[..0] == "" && "0"[..0] == "";
  }

  lemma TinyIsWellFormed()
    ensures WellFormed(Tiny)
  {
    hide VersionOk;
    TinyVersion();
    assert TinyDigest[0] == '1' && '1' in TinyDigest;
    assert ReleaseOk(Tiny.releases[0]);
  }

  /** On this catalog the routers do differ: the installed release is wanted on an unknown architecture. */
  lemma RoutersDiffer(profile: string)
    ensures WellFormed(Tiny) && !ArchOk("arm") && RouteOf(ToNative(Tiny), "1.0.0", TinyDigest, "1.0.0", "arm", profile).Some?
  {
    hide WellFormed, RouteOf;
    TinyIsWellFormed();
    RoutersAgreeExactlyWhen(Tiny, "1.0.0", TinyDigest, "1.0.0", "arm", profile);
  }

  lemma ChainOfNothing(c: Catalog, arch: string, profile: string, current: string)
    ensures AdmittedChain(c, arch, profile, current, [])
  {
  }

  lemma RoutesNotRevoked(c: Catalog, current: string, manifest: Digest, requested: string, arch: string, profile: string)
    requires WellFormed(c) && RouteOf(ToNative(c), current, manifest, requested, arch, profile).Some?
    ensures Target(ToNative(c), requested) >= 0 && !c.releases[Target(ToNative(c), requested)].revoked
  {
    hide Route, GraphOf, WellFormed;
  }

  lemma MalformedPlatform(c: Catalog, arch: string, profile: string, current: string, names: seq<string>)
    requires WellFormed(c) && !(ArchOk(arch) && ProfileOk(profile))
    requires AdmittedChain(c, arch, profile, current, names)
    ensures names == []
  {
    hide Find, ReleaseOk, StableOk, DigestOk, UniqueTransitions;
  }
}

/**
 Building the next catalog from an authenticated base and pipeline acceptance reports
 (CatalogPublisher._build).  Nothing of the base is lost, so routes survive.
 */
module CatalogBuild {
  import opened StoreBytes
  import opened CatalogModel
  import opened RouteSearch
  import opened CatalogRouting

  /**
   An acceptance report as found at a path, with the digests of its bytes and signature.
   `sealed` tells whether its signature and everything in it that depends on neither the
   clock nor the published endpoints is in order.
   */
  datatype Report = Report(
    path: string, source: string, target: string, sourceRoot: Digest, targetRoot: Digest, arch: string, profile: string,
    started: nat, finished: nat, sealed: bool, sha: Digest, signature: Digest)

  datatype Checkpoint = Checkpoint(commit: string, inputs: Digest, clean: bool)

  /** What the publisher reads from outside its protected state. */
  datatype Inputs = Inputs(files: map<string, Report>, roots: map<string, Digest>, checkpoint: Checkpoint)

  const DAY: nat := 86400
  const TTL: nat := 7 * DAY

  predicate Fresh(r: Report, now: nat) {
    0 < r.started <= r.finished <= now && r.finished <= MAX_TIME &&
    r.finished - r.started <= DAY && now - r.finished <= 14 * DAY
  }

  predicate ReportOk(r: Report, inputs: Inputs, now: nat) {
    && VersionOk(r.source) && VersionOk(r.target) && r.source != r.target
    && r.source in inputs.roots && inputs.roots[r.source] == r.sourceRoot
    && r.target in inputs.roots && inputs.roots[r.target] == r.targetRoot
    && ArchOk(r.arch) && r.sealed
    && Fresh(r, now)
  }

  // ------------------------------------------------------------------ sorting

  /** Code-point order of strings. */
  predicate TextLe(a: string, b: string) {
    a == "" || (b != "" && (a[0] < b[0] || (a[0] == b[0] && TextLe(a[1..], b[1..]))))
  }

  predicate ReleaseLe(a: Release, b: Release) {
    TextLe(a.version, b.version)
  }

  predicate KeyLe(a: seq<string>, b: seq<string>) {
    a == [] || (b != [] && (if a[0] == b[0] then KeyLe(a[1..], b[1..]) else TextLe(a[0], b[0])))
  }

  predicate TransitionLe(a: Transition, b: Transition) {
    KeyLe([a.from, a.to, a.arch, a.profile], [b.from, b.to, b.arch, b.profile])
  }

  function Insert<T>(x: T, s: seq<T>, le: (T, T) -> bool): seq<T> {
    if s == [] then [x]
    else if le(x, s[0]) then [x] + s
    else [s[0]] + Insert(x, s[1..], le)
  }

  function Sort<T>(s: seq<T>, le: (T, T) -> bool): seq<T> {
    if s == [] then [] else Insert(s[0], Sort(s[1..], le), le)
  }

  lemma {:induction false} InsertKeeps<T>(x: T, s: seq<T>, le: (T, T) -> bool)
    ensures multiset(Insert(x, s, le)) == multiset{x} + multiset(s)
  {
    if s != [] {
      assert s == [s[0]] + s[1..];
      if !le(x, s[0]) {
        InsertKeeps(x, s[1..], le);
      }
    }
  }

  lemma {:induction false} SortKeeps<T>(s: seq<T>, le: (T, T) -> bool)
    ensures multiset(Sort(s, le)) == multiset(s)
  {
    if s != [] {
      assert s == [s[0]] + s[1..];
      SortKeeps(s[1..], le);
      InsertKeeps(s[0], Sort(s[1..], le), le);
    }
  }

  lemma SortMembers<T>(s: seq<T>, le: (T, T) -> bool, x: T)
    ensures x in Sort(s, le) <==> x in s
  {
    SortKeeps(s, le);
    assert x in Sort(s, le) <==> x in multiset(Sort(s, le));
    assert x in s <==> x in multiset(s);
  }

  ghost predicate Ordering<T(!new)>(le: (T, T) -> bool) {
    && (forall x, y :: le(x, y) || le(y, x))
    && (forall x, y, z :: le(x, y) && le(y, z) ==> le(x, z))
  }

  predicate Sorted<T>(s: seq<T>, le: (T, T) -> bool) {
    forall i, j :: 0 <= i < j < |s| ==> le(s[i], s[j])
  }

  lemma {:induction false} InsertSorted<T(!new)>(x: T, s: seq<T>, le: (T, T) -> bool)
    requires Ordering(le) && Sorted(s, le)
    ensures Sorted(Insert(x, s, le), le) && forall y :: y in Insert(x, s, le) <==> y == x || y in s
  {
    if s != [] && !le(x, s[0]) {
      var rest := Insert(x, s[1..], le);
      InsertSorted(x, s[1..], le);
      forall j | 0 <= j < |rest| ensures le(s[0], rest[j]) {
        assert rest[j] in rest;
      }
      assert forall y :: y in s <==> y == s[0] || y in s[1..];
    }
  }

  lemma {:induction false} SortSorted<T(!new)>(s: seq<T>, le: (T, T) -> bool)
    requires Ordering(le)
    ensures Sorted(Sort(s, le), le)
  {
    if s != [] {
      SortSorted(s[1..], le);
      InsertSorted(s[0], Sort(s[1..], le), le);
    }
  }

  /** What is sorted already stays as it is. */
  lemma {:induction false} SortOfSorted<T>(s: seq<T>, le: (T, T) -> bool)
    requires Sorted(s, le)
    ensures Sort(s, le) == s
  {
    if s != [] {
      SortOfSorted(s[1..], le);
      assert s == [s[0]] + s[1..];
    }
  }

  lemma {:induction false} TextOrdered(a: string, b: string, c: string)
    ensures TextLe(a, b) || TextLe(b, a)
    ensures TextLe(a, b) && TextLe(b, a) ==> a == b
    ensures TextLe(a, b) && TextLe(b, c) ==> TextLe(a, c)
    decreases |a|
  {
    if a != "" && b != "" {
      TextOrdered(a[1..], b[1..], if c == "" then "" else c[1..]);
      assert a == [a[0]] + a[1..] && b == [b[0]] + b[1..];
    }
  }

  /** At some position both texts have a character, everything before is the same, and there the first is smaller. */
  predicate SmallerAt(a: string, b: string, k: nat) {
    k < |a| && k < |b| && a[..k] == b[..k] && a[k] < b[k]
  }

  lemma SmallerLater(a: string, b: string, k: nat)
    requires a != "" && b != "" && a[0] == b[0]
    ensures SmallerAt(a[1..], b[1..], k) <==> SmallerAt(a, b, k + 1)
  {
    if k < |a| - 1 && k < |b| - 1 {
      assert a[..k + 1] == [a[0]] + a[1..][..k] && b[..k + 1] == [b[0]] + b[1..][..k];
      assert a[..k + 1][1..] == a[1..][..k] && b[..k + 1][1..] == b[1..][..k];
    }
  }

  lemma PrefixLater(a: string, b: string)
    requires a != "" && b != "" && a[0] == b[0]
    ensures a <= b <==> a[1..] <= b[1..]
  {
    assert a == [a[0]] + a[1..] && b == [b[0]] + b[1..];
  }

  /** Text is ordered by its first difference, a prefix before what it begins. */
  lemma {:induction false} TextLeExactlyWhen(a: string, b: string)
    ensures TextLe(a, b) <==> a <= b || exists k: nat :: SmallerAt(a, b, k)
    decreases |a|
  {
    hide SmallerAt;
    if a != "" && b != "" && a[0] == b[0] {
      TextLeExactlyWhen(a[1..], b[1..]);
      PrefixLater(a, b);
      forall k: nat ensures SmallerAt(a[1..], b[1..], k) <==> SmallerAt(a, b, k + 1) {
        SmallerLater(a, b, k);
      }
      NotAtFirst(a, b);
      assert forall k: nat :: SmallerAt(a, b, k) ==> k > 0 && SmallerAt(a[1..], b[1..], k - 1);
    } else {
      DifferAtFirst(a, b);
    }
  }

  lemma NotAtFirst(a: string, b: string)
    requires a != "" && b != "" && a[0] == b[0]
    ensures !SmallerAt(a, b, 0)
  {
  }

  lemma DifferAtFirst(a: string, b: string)
    requires a == "" || b == "" || a[0] != b[0]
    ensures a <= b <==> a == ""
    ensures (exists k: nat :: SmallerAt(a, b, k)) <==> a != "" && b != "" && a[0] < b[0]
  {
    if a != "" && b != "" {
      assert a[0] < b[0] ==> SmallerAt(a, b, 0);
      forall k: nat | 0 < k < |a| && k < |b| ensures a[..k] != b[..k] {
        assert a[..k][0] == a[0] && b[..k][0] == b[0];
      }
    }
  }

  lemma {:induction false} KeyOrdered(a: seq<string>, b: seq<string>, c: seq<string>)
    ensures KeyLe(a, b) || KeyLe(b, a)
    ensures KeyLe(a, b) && KeyLe(b, c) ==> KeyLe(a, c)
    decreases |a|
  {
    hide TextLe;
    if a != [] && b != [] {
      TextOrdered(a[0], b[0], if c == [] then "" else c[0]);
      TextOrdered(b[0], if c == [] then "" else c[0], a[0]);
      KeyOrdered(a[1..], b[1..], if c == [] then [] else c[1..]);
    }
  }

  lemma CatalogOrderings()
    ensures Ordering(ReleaseLe) && Ordering(TransitionLe)
  {
    hide TextLe, KeyLe;
    forall x: Release, y: Release, z: Release
      ensures (ReleaseLe(x, y) || ReleaseLe(y, x)) && (ReleaseLe(x, y) && ReleaseLe(y, z) ==> ReleaseLe(x, z))
    {
      TextOrdered(x.version, y.version, z.version);
    }
    forall x: Transition, y: Transition, z: Transition
      ensures (TransitionLe(x, y) || TransitionLe(y, x)) && (TransitionLe(x, y) && TransitionLe(y, z) ==> TransitionLe(x, z))
    {
      KeyOrdered([x.from, x.to, x.arch, x.profile], [y.from, y.to, y.arch, y.profile], [z.from, z.to, z.arch, z.profile]);
    }
  }

  // ------------------------------------------------------------------ releases and edges

  /** setdefault: a version that is already known must have the same root digest. */
  function AddRelease(rs: seq<Release>, version: string, root: Digest): Option<seq<Release>> {
    var k := Find(rs, version);
    if k < 0 then Some(rs + [Release(version, root, false)])
    else if rs[k].manifest != root then None
    else Some(rs)
  }

  function AddTransition(rs: seq<Release>, ts: seq<Transition>, t: Transition, promote: bool): Option<seq<Transition>> {
    var to := Find(rs, t.to);
    if to < 0 || rs[to].revoked then None
    else
      var existing := Matching(ts, t);
      if existing != [] then (if promote && existing == [t] then Some(ts) else None)
      else if promote then None
      else Some(ts + [t])
  }

  function Matching(ts: seq<Transition>, t: Transition): seq<Transition> {
    if ts == [] then []
    else
      var front := Matching(ts[..|ts| - 1], t);
      if SameIdentity(ts[|ts| - 1], t) then front + [ts[|ts| - 1]] else front
  }

  function TransitionOf(r: Report): Transition {
    Transition(r.source, r.target, r.arch, r.profile, r.sha)
  }

  function AddTransitions(rs: seq<Release>, ts: seq<Transition>, reports: seq<Report>, promote: bool): Option<seq<Transition>>
    decreases |reports|
  {
    if reports == [] then Some(ts)
    else
      match AddTransitions(rs, ts, reports[..|reports| - 1], promote)
      case None => None
      case Some(edges) => AddTransition(rs, edges, TransitionOf(reports[|reports| - 1]), promote)
  }

  // ------------------------------------------------------------------ reports

  function ReadReports(paths: seq<string>, inputs: Inputs): Option<seq<Report>> {
    if paths == [] then Some([])
    else
      match ReadReports(paths[..|paths| - 1], inputs)
      case None => None
      case Some(front) =>
        var last := paths[|paths| - 1];
        if last in inputs.files then Some(front + [inputs.files[last].(path := last)]) else None
  }

  /** One release pair, each report acceptable, each platform once. */
  predicate ReportsOk(reports: seq<Report>, inputs: Inputs, now: nat) {
    && 1 <= |reports| <= 2
    && (forall k :: 0 <= k < |reports| ==> ReportOk(reports[k], inputs, now))
    && (forall k :: 0 <= k < |reports| ==> reports[k].source == reports[0].source && reports[k].target == reports[0].target)
    && (forall i, j :: 0 <= i < j < |reports| ==>
          !(reports[i].arch == reports[j].arch && reports[i].profile == reports[j].profile))
  }

  // ------------------------------------------------------------------ the document

  function Max(a: nat, b: nat): nat {
    if a < b then b else a
  }

  function BaseRevision(base: Option<Catalog>): nat {
    if base.None? then 0 else base.value.revision
  }

  /** The next document, before its own validation; nothing when a report contradicts the base. */
  function NextDocument(reports: seq<Report>, base: Option<Catalog>, reserved: nat, issued: nat, roots: map<string, Digest>,
                        promote: bool): Option<Catalog>
    requires reports != [] && reports[0].source in roots && reports[0].target in roots
  {
    var source, target := reports[0].source, reports[0].target;
    var previous := if base.None? then [] else base.value.releases;
    match AddRelease(previous, source, roots[source])
    case None => None
    case Some(withSource) =>
      match AddRelease(withSource, target, roots[target])
      case None => None
      case Some(releases) =>
        match AddTransitions(releases, if base.None? then [] else base.value.transitions, reports, promote)
        case None => None
        case Some(edges) =>
          if promote && base.None? then None
          else
            var stable := if promote then Some(target) else if base.None? then None else base.value.stable;
            if promote && stable == base.value.stable then None
            else
              Some(Catalog(Max(BaseRevision(base), reserved) + 1, issued, issued + TTL, stable,
                           Sort(releases, ReleaseLe), Sort(edges, TransitionLe)))
  }

  /** The reports and the document of a plan, or nothing when the publisher refuses. */
  function BuildDocument(paths: seq<string>, base: Option<Catalog>, reserved: nat, issued: nat, now: nat, inputs: Inputs,
                         promote: bool): Option<(seq<Report>, Catalog)>
  {
    match ReadReports(paths, inputs)
    case None => None
    case Some(reports) =>
      if !ReportsOk(reports, inputs, now) then None
      else
        match NextDocument(reports, base, reserved, issued, inputs.roots, promote)
        case None => None
        case Some(document) => if Valid(document, now) then Some((reports, document)) else None
  }

  /** _build: reports are read and checked one by one, then the releases and edges are grown. */
  method Build(paths: seq<string>, base: Option<Catalog>, reserved: nat, issued: nat, now: nat, inputs: Inputs, promote: bool)
    returns (r: Option<(seq<Report>, Catalog)>)
    ensures r == BuildDocument(paths, base, reserved, issued, now, inputs, promote)
  {
    hide Valid, Sort, AddTransitions, ReportOk, AddTransition, Matching, AddRelease, ReadReports, Fresh, Find;
    if !(1 <= |paths| <= 2) {
      ReadLength(paths, inputs);
      return None;
    }
    var reports, ok := CollectReports(paths, inputs, now);
    if !ok {
      return None;
    }
    var source, target := reports[0].source, reports[0].target;
    FirstReport(reports, inputs, now);
    var previous := if base.None? then [] else base.value.releases;
    var withSource := AddRelease(previous, source, inputs.roots[source]);
    if withSource.None? {
      return None;
    }
    var releases := AddRelease(withSource.value, target, inputs.roots[target]);
    if releases.None? {
      return None;
    }
    var start := if base.None? then [] else base.value.transitions;
    var edges, grown := GrowEdges(releases.value, start, reports, promote);
    if !grown || (promote && base.None?) {
      return None;
    }
    var stable := if promote then Some(target) else if base.None? then None else base.value.stable;
    if promote && stable == base.value.stable {
      return None;
    }
    var document := Catalog(Max(BaseRevision(base), reserved) + 1, issued, issued + TTL, stable,
                            Sort(releases.value, ReleaseLe), Sort(edges, TransitionLe));
    var valid := ValidateCatalog(document, now);
    if !valid {
      return None;
    }
    return Some((reports, document));
  }

  lemma {:induction false} ReadLength(paths: seq<string>, inputs: Inputs)
    ensures ReadReports(paths, inputs).Some? ==> |ReadReports(paths, inputs).value| == |paths|
  {
    if paths != [] {
      ReadLength(paths[..|paths| - 1], inputs);
    }
  }

  lemma {:induction false} ReadAppend(paths: seq<string>, more: seq<string>, inputs: Inputs)
    ensures ReadReports(paths + more, inputs).Some? ==>
              ReadReports(paths, inputs).Some? && ReadReports(paths, inputs).value <= ReadReports(paths + more, inputs).value
  {
    if more == [] {
      assert paths + more == paths;
    } else {
      assert (paths + more)[..|paths + more| - 1] == paths + more[..|more| - 1];
      ReadAppend(paths, more[..|more| - 1], inputs);
    }
  }

  function Platform(r: Report): (string, string) {
    (r.arch, r.profile)
  }

  function Platforms(rs: seq<Report>): set<(string, string)> {
    set r | r in rs :: Platform(r)
  }

  /** Whether one more report fits the ones already taken. */
  predicate Fits(reports: seq<Report>, report: Report, inputs: Inputs, now: nat) {
    && ReportOk(report, inputs, now)
    && (reports != [] ==> report.source == reports[0].source && report.target == reports[0].target)
    && Platform(report) !in Platforms(reports)
  }

  lemma PlatformsSnoc(reports: seq<Report>, report: Report)
    ensures Platforms(reports + [report]) == Platforms(reports) + {Platform(report)}
  {
    assert forall r :: r in reports + [report] <==> r in reports || r == report;
  }

  lemma FitsNext(all: seq<Report>, n: nat, inputs: Inputs, now: nat)
    requires n < |all| <= 2 && (n > 0 ==> ReportsOk(all[..n], inputs, now))
    ensures Fits(all[..n], all[n], inputs, now) ==> ReportsOk(all[..n + 1], inputs, now)
    ensures ReportsOk(all, inputs, now) ==> Fits(all[..n], all[n], inputs, now)
  {
    hide ReportOk;
    if ReportsOk(all, inputs, now) {
      forall r | r in all[..n] ensures Platform(r) != Platform(all[n]) {
        var k :| 0 <= k < n && all[..n][k] == r;
      }
    }
    if Fits(all[..n], all[n], inputs, now) {
      forall i | 0 <= i < n ensures Platform(all[i]) != Platform(all[n]) {
        assert all[..n][i] in all[..n];
      }
      var grown := all[..n + 1];
      forall k | 0 <= k < |grown|
        ensures ReportOk(grown[k], inputs, now)
        ensures grown[k].source == grown[0].source && grown[k].target == grown[0].target
      {
        if k < n { assert grown[k] == all[..n][k]; }
      }
    }
  }

  method CollectReports(paths: seq<string>, inputs: Inputs, now: nat) returns (reports: seq<Report>, ok: bool)
    requires 1 <= |paths| <= 2
    ensures ok <==> ReadReports(paths, inputs).Some? && ReportsOk(ReadReports(paths, inputs).value, inputs, now)
    ensures ok ==> reports == ReadReports(paths, inputs).value
  {
    hide ReportOk, ReportsOk, Platforms, Platform;
    reports := [];
    var seen: set<(string, string)> := {};
    assert seen == Platforms([]) by { NoPlatforms(); }
    for n := 0 to |paths|
      invariant ReadReports(paths[..n], inputs) == Some(reports) && |reports| == n
      invariant n > 0 ==> ReportsOk(reports, inputs, now)
      invariant seen == Platforms(reports)
    {
      assert paths[..n + 1][..n] == paths[..n];
      assert paths[..n + 1] + paths[n + 1..] == paths;
      ReadAppend(paths[..n + 1], paths[n + 1..], inputs);
      ReadLength(paths, inputs);
      if paths[n] !in inputs.files {
        return reports, false;
      }
      var report := inputs.files[paths[n]].(path := paths[n]);
      ghost var next := reports + [report];
      assert next[..n] == reports && next[..n + 1] == next;
      FitsNext(next, n, inputs, now);
      if ReadReports(paths, inputs).Some? {
        ghost var all := ReadReports(paths, inputs).value;
        assert all[..n + 1] == next;
        assert all[..n] == reports;
        FitsNext(all, n, inputs, now);
      }
      if (n > 0 && (report.source != reports[0].source || report.target != reports[0].target)) ||
         !ReportOk(report, inputs, now) || Platform(report) in seen {
        return reports, false;
      }
      PlatformsSnoc(reports, report);
      seen := seen + {Platform(report)};
      reports := reports + [report];
    }
    assert paths[..|paths|] == paths;
    return reports, true;
  }

  lemma NoPlatforms()
    ensures Platforms([]) == {}
  {
  }

  method GrowEdges(rs: seq<Release>, ts: seq<Transition>, reports: seq<Report>, promote: bool)
    returns (edges: seq<Transition>, ok: bool)
    ensures ok <==> AddTransitions(rs, ts, reports, promote).Some?
    ensures ok ==> edges == AddTransitions(rs, ts, reports, promote).value
  {
    hide AddTransition, TransitionOf;
    edges := ts;
    assert reports[..0] == [];
    for n := 0 to |reports|
      invariant AddTransitions(rs, ts, reports[..n], promote) == Some(edges)
    {
      assert reports[..n + 1][..n] == reports[..n];
      var next := AddTransition(rs, edges, TransitionOf(reports[n]), promote);
      if next.None? {
        GrowFails(rs, ts, reports, promote, n + 1);
        return edges, false;
      }
      edges := next.value;
    }
    assert reports[..|reports|] == reports;
    return edges, true;
  }

  lemma {:induction false} GrowFails(rs: seq<Release>, ts: seq<Transition>, reports: seq<Report>, promote: bool, n: nat)
    requires n <= |reports| && AddTransitions(rs, ts, reports[..n], promote).None?
    ensures AddTransitions(rs, ts, reports, promote).None?
    decreases |reports| - n
  {
    hide AddTransition, TransitionOf;
    if n == |reports| {
      assert reports[..n] == reports;
    } else {
      assert reports[..n + 1][..n] == reports[..n];
      GrowFails(rs, ts, reports, promote, n + 1);
    }
  }

  // ------------------------------------------------------------------ what is kept

  lemma {:induction false} TransitionsKept(rs: seq<Release>, ts: seq<Transition>, reports: seq<Report>, promote: bool)
    requires AddTransitions(rs, ts, reports, promote).Some?
    ensures
      var after := AddTransitions(rs, ts, reports, promote).value;
      && ts <= after
      && (promote ==> after == ts)
      && (!promote ==> |after| == |ts| + |reports|)
      && forall k :: 0 <= k < |reports| ==> TransitionOf(reports[k]) in after
    decreases |reports|
  {
    if reports != [] {
      var front, last := reports[..|reports| - 1], reports[|reports| - 1];
      TransitionsKept(rs, ts, front, promote);
      var edges := AddTransitions(rs, ts, front, promote).value;
      var after := AddTransitions(rs, ts, reports, promote).value;
      if promote {
        assert Matching(edges, TransitionOf(last)) == [TransitionOf(last)];
        MatchingSubset(edges, TransitionOf(last), TransitionOf(last));
      }
      assert TransitionOf(last) in after;
      forall k | 0 <= k < |reports| ensures TransitionOf(reports[k]) in after {
        if k < |front| {
          assert reports[k] == front[k];
          assert TransitionOf(front[k]) in edges;
        }
      }
    }
  }

  lemma {:induction false} MatchingSubset(ts: seq<Transition>, t: Transition, x: Transition)
    requires x in Matching(ts, t)
    ensures x in ts && SameIdentity(x, t)
  {
    if ts != [] {
      var front := ts[..|ts| - 1];
      if x in Matching(front, t) {
        MatchingSubset(front, t, x);
      }
    }
  }

  /**
   Every base release keeps its root digest and revoked flag, every base transition stays,
   and every accepted report's transition is in the new document.
   */
  lemma BaseIsKept(paths: seq<string>, base: Catalog, reserved: nat, issued: nat, now: nat, inputs: Inputs, promote: bool)
    requires BuildDocument(paths, Some(base), reserved, issued, now, inputs, promote).Some?
    ensures
      var (reports, next) := BuildDocument(paths, Some(base), reserved, issued, now, inputs, promote).value;
      && Valid(next, now)
      && next.revision > base.revision && next.revision > reserved
      && (forall r :: r in base.releases ==> r in next.releases)
      && (forall t :: t in base.transitions ==> t in next.transitions)
      && (forall k :: 0 <= k < |reports| ==> TransitionOf(reports[k]) in next.transitions)
      && (!promote ==> next.stable == base.stable)
  {
    hide Valid, ReportsOk, Sort, AddTransitions;
    var (reports, next) := BuildDocument(paths, Some(base), reserved, issued, now, inputs, promote).value;
    assert reports != [] && reports[0].source in inputs.roots && reports[0].target in inputs.roots by { FirstReport(reports, inputs, now); }
    var withSource := AddRelease(base.releases, reports[0].source, inputs.roots[reports[0].source]).value;
    var releases := AddRelease(withSource, reports[0].target, inputs.roots[reports[0].target]).value;
    var edges := AddTransitions(releases, base.transitions, reports, promote).value;
    TransitionsKept(releases, base.transitions, reports, promote);
    forall r | r in base.releases ensures r in next.releases {
      SortMembers(releases, ReleaseLe, r);
    }
    forall t: Transition ensures t in next.transitions <==> t in edges {
      SortMembers(edges, TransitionLe, t);
    }
  }

  lemma FirstReport(reports: seq<Report>, inputs: Inputs, now: nat)
    requires ReportsOk(reports, inputs, now)
    ensures reports != [] && reports[0].source in inputs.roots && reports[0].target in inputs.roots
  {
  }

  lemma PromotedReleases(previous: seq<Release>, rs: seq<Release>, roots: map<string, Digest>, source: string, target: string)
    requires source in roots && target in roots
    requires AddRelease(previous, source, roots[source]).Some?
    requires AddRelease(AddRelease(previous, source, roots[source]).value, target, roots[target]) == Some(rs)
    requires Find(previous, source) >= 0 && Find(previous, target) >= 0
    ensures rs == previous
  {
  }

  /** A promotion changes nothing but the stable pointer, the revision and the two times. */
  lemma PromotionOnlyMovesStable(paths: seq<string>, base: Catalog, reserved: nat, issued: nat, now: nat, inputs: Inputs)
    requires WellFormed(base)
    requires BuildDocument(paths, Some(base), reserved, issued, now, inputs, true).Some?
    ensures
      var (reports, next) := BuildDocument(paths, Some(base), reserved, issued, now, inputs, true).value;
      && multiset(next.releases) == multiset(base.releases)
      && multiset(next.transitions) == multiset(base.transitions)
      && next.stable == Some(reports[0].target) && next.stable != base.stable
      && (Sorted(base.releases, ReleaseLe) ==> next.releases == base.releases)
      && (Sorted(base.transitions, TransitionLe) ==> next.transitions == base.transitions)
  {
    hide Valid, Sort, AddTransitions, WellFormed, ReportOk, Sorted;
    var (reports, next) := BuildDocument(paths, Some(base), reserved, issued, now, inputs, true).value;
    assert reports != [] && reports[0].source in inputs.roots && reports[0].target in inputs.roots by { FirstReport(reports, inputs, now); }
    var withSource := AddRelease(base.releases, reports[0].source, inputs.roots[reports[0].source]).value;
    var releases := AddRelease(withSource, reports[0].target, inputs.roots[reports[0].target]).value;
    TransitionsKept(releases, base.transitions, reports, true);
    var t := TransitionOf(reports[0]);
    EndpointsKnown(base, t);
    PromotedReleases(base.releases, releases, inputs.roots, reports[0].source, reports[0].target);
    SortKeeps(releases, ReleaseLe);
    SortKeeps(base.transitions, TransitionLe);
    if Sorted(base.releases, ReleaseLe) { SortOfSorted(base.releases, ReleaseLe); }
    if Sorted(base.transitions, TransitionLe) { SortOfSorted(base.transitions, TransitionLe); }
  }

  /** Every catalog the publisher builds lists its releases and transitions in order. */
  lemma BuiltIsSorted(paths: seq<string>, base: Option<Catalog>, reserved: nat, issued: nat, now: nat, inputs: Inputs, promote: bool)
    requires BuildDocument(paths, base, reserved, issued, now, inputs, promote).Some?
    ensures
      var next := BuildDocument(paths, base, reserved, issued, now, inputs, promote).value.1;
      && (forall i, j :: 0 <= i < j < |next.releases| ==> TextLe(next.releases[i].version, next.releases[j].version))
      && (forall i, j :: 0 <= i < j < |next.transitions| ==> TextLe(next.transitions[i].from, next.transitions[j].from))
      && Sorted(next.releases, ReleaseLe) && Sorted(next.transitions, TransitionLe)
  {
    hide Valid, Sort, AddTransitions, AddRelease, ReadReports, ReportOk, Sorted, Ordering;
    CatalogOrderings();
    var (reports, next) := BuildDocument(paths, base, reserved, issued, now, inputs, promote).value;
    FirstReport(reports, inputs, now);
    var previous := if base.None? then [] else base.value.releases;
    var withSource := AddRelease(previous, reports[0].source, inputs.roots[reports[0].source]).value;
    var releases := AddRelease(withSource, reports[0].target, inputs.roots[reports[0].target]).value;
    var edges := AddTransitions(releases, if base.None? then [] else base.value.transitions, reports, promote).value;
    SortSorted(releases, ReleaseLe);
    SortSorted(edges, TransitionLe);
    SortedReleases(next.releases);
    SortedTransitions(next.transitions);
  }

  lemma SortedReleases(rs: seq<Release>)
    requires Sorted(rs, ReleaseLe)
    ensures forall i, j :: 0 <= i < j < |rs| ==> TextLe(rs[i].version, rs[j].version)
  {
    forall i, j | 0 <= i < j < |rs| ensures TextLe(rs[i].version, rs[j].version) {
      assert ReleaseLe(rs[i], rs[j]);
    }
  }

  lemma SortedTransitions(ts: seq<Transition>)
    requires Sorted(ts, TransitionLe)
    ensures forall i, j :: 0 <= i < j < |ts| ==> TextLe(ts[i].from, ts[j].from)
  {
    forall i, j | 0 <= i < j < |ts| ensures TextLe(ts[i].from, ts[j].from) {
      assert TransitionLe(ts[i], ts[j]);
      TextOrdered(ts[i].from, ts[j].from, "");
    }
  }

  lemma EndpointsKnown(base: Catalog, t: Transition)
    requires WellFormed(base) && t in base.transitions
    ensures Find(base.releases, t.from) >= 0 && Find(base.releases, t.to) >= 0
  {
    hide Find;
    var k :| 0 <= k < |base.transitions| && base.transitions[k] == t;
    assert TransitionOk(base.releases, base.transitions[k]);
  }

  // ------------------------------------------------------------------ exactly what is built

  function BaseReleases(base: Option<Catalog>): seq<Release> {
    if base.None? then [] else base.value.releases
  }

  function BaseTransitions(base: Option<Catalog>): seq<Transition> {
    if base.None? then [] else base.value.transitions
  }

  function TransitionsOf(reports: seq<Report>): (r: seq<Transition>)
    ensures |r| == |reports| && forall k :: 0 <= k < |reports| ==> r[k] == TransitionOf(reports[k])
  {
    seq(|reports|, k requires 0 <= k < |reports| => TransitionOf(reports[k]))
  }

  /** A version is listed with this root digest. */
  predicate Lists(rs: seq<Release>, version: string, root: Digest) {
    exists k :: 0 <= k < |rs| && rs[k].version == version && rs[k].manifest == root
  }

  lemma AddReleaseFacts(rs: seq<Release>, version: string, root: Digest)
    ensures AddRelease(rs, version, root).Some? <==> forall k :: 0 <= k < |rs| && k == Find(rs, version) ==> rs[k].manifest == root
    ensures
      AddRelease(rs, version, root).Some? ==>
        var after := AddRelease(rs, version, root).value;
        && rs <= after && Lists(after, version, root)
        && forall r :: r in after ==> r in rs || (r == Release(version, root, false) && Find(rs, version) < 0)
  {
    hide Find;
    var at := Find(rs, version);
    if at < 0 {
      var after := rs + [Release(version, root, false)];
      assert after[|rs|].version == version;
    } else if rs[at].manifest == root {
      assert rs[at].version == version;
    }
  }

  lemma {:induction false} GrownBy(rs: seq<Release>, ts: seq<Transition>, reports: seq<Report>, promote: bool)
    requires AddTransitions(rs, ts, reports, promote).Some?
    ensures AddTransitions(rs, ts, reports, promote).value == if promote then ts else ts + TransitionsOf(reports)
    decreases |reports|
  {
    hide Matching, Find;
    if reports != [] {
      var front := reports[..|reports| - 1];
      GrownBy(rs, ts, front, promote);
      assert TransitionsOf(reports) == TransitionsOf(front) + [TransitionOf(reports[|reports| - 1])];
    } else {
      assert ts + TransitionsOf(reports) == ts;
    }
  }

  /**
   The whole content of a built catalog: both endpoints at their published root digests,
   everything of the base, nothing else; the reports' transitions and nothing else; the
   next revision, seven days, and a stable pointer that only a promotion moves.
   */
  lemma BuiltContents(paths: seq<string>, base: Option<Catalog>, reserved: nat, issued: nat, now: nat, inputs: Inputs, promote: bool)
    requires BuildDocument(paths, base, reserved, issued, now, inputs, promote).Some?
    ensures
      var (reports, next) := BuildDocument(paths, base, reserved, issued, now, inputs, promote).value;
      && |reports| == |paths| > 0 && reports[0].source in inputs.roots && reports[0].target in inputs.roots
      && var source, target := reports[0].source, reports[0].target;
      && next.revision == (if BaseRevision(base) < reserved then reserved else BaseRevision(base)) + 1
      && next.issued == issued && next.expires == issued + 604800
      && next.stable == (if promote then Some(target) else if base.None? then None else base.value.stable)
      && Lists(next.releases, source, inputs.roots[source]) && Lists(next.releases, target, inputs.roots[target])
      && (forall r :: r in BaseReleases(base) ==> r in next.releases)
      && (forall r :: r in next.releases && r !in BaseReleases(base) ==>
            (r.version == source || r.version == target) && r.manifest == inputs.roots[r.version] && !r.revoked)
      && multiset(next.transitions) == multiset(BaseTransitions(base)) + multiset(if promote then [] else TransitionsOf(reports))
  {
    hide Valid, ReportsOk, Sort, AddTransitions, AddRelease, Lists, ReadReports, Find;
    var (reports, next) := BuildDocument(paths, base, reserved, issued, now, inputs, promote).value;
    FirstReport(reports, inputs, now);
    ReadLength(paths, inputs);
    var source, target := reports[0].source, reports[0].target;
    var withSource := AddRelease(BaseReleases(base), source, inputs.roots[source]).value;
    var releases := AddRelease(withSource, target, inputs.roots[target]).value;
    var edges := AddTransitions(releases, BaseTransitions(base), reports, promote).value;
    AddReleaseFacts(BaseReleases(base), source, inputs.roots[source]);
    AddReleaseFacts(withSource, target, inputs.roots[target]);
    GrownBy(releases, BaseTransitions(base), reports, promote);
    SortKeeps(edges, TransitionLe);
    forall r ensures r in next.releases <==> r in releases {
      SortMembers(releases, ReleaseLe, r);
    }
    ListsStill(withSource, releases, source, inputs.roots[source]);
    ListsSorted(releases, source, inputs.roots[source]);
    ListsSorted(releases, target, inputs.roots[target]);
    assert promote ==> BaseTransitions(base) + [] == BaseTransitions(base);
  }

  lemma ListsStill(rs: seq<Release>, more: seq<Release>, version: string, root: Digest)
    requires rs <= more && Lists(rs, version, root)
    ensures Lists(more, version, root)
  {
    var k :| 0 <= k < |rs| && rs[k].version == version && rs[k].manifest == root;
    assert more[k] == rs[k];
  }

  lemma ListsSorted(rs: seq<Release>, version: string, root: Digest)
    requires Lists(rs, version, root)
    ensures Lists(Sort(rs, ReleaseLe), version, root)
  {
    hide Sort;
    var k :| 0 <= k < |rs| && rs[k].version == version && rs[k].manifest == root;
    SortMembers(rs, ReleaseLe, rs[k]);
    assert rs[k] in Sort(rs, ReleaseLe);
  }

  // ------------------------------------------------------------------ exactly when it is built

  /** A release the base knows keeps its root digest. */
  predicate RootAgrees(base: Option<Catalog>, version: string, root: Digest) {
    forall r :: r in BaseReleases(base) && r.version == version ==> r.manifest == root
  }

  /** The target is not revoked in the base. */
  predicate TargetAlive(base: Option<Catalog>, target: string) {
    forall r :: r in BaseReleases(base) && r.version == target ==> !r.revoked
  }

  lemma {:induction false} NoMatching(ts: seq<Transition>, t: Transition)
    ensures Matching(ts, t) == [] <==> forall x :: x in ts ==> !SameIdentity(x, t)
  {
    if ts != [] {
      var front := ts[..|ts| - 1];
      NoMatching(front, t);
      assert ts == front + [ts[|ts| - 1]];
    }
  }

  lemma {:induction false} OneMatching(ts: seq<Transition>, t: Transition)
    requires UniqueTransitions(ts)
    ensures Matching(ts, t) == [t] <==> t in ts
  {
    if ts != [] {
      var front, last := ts[..|ts| - 1], ts[|ts| - 1];
      OneMatching(front, t);
      assert t in ts <==> t in front || t == last;
      if SameIdentity(last, t) {
        forall x | x in front ensures !SameIdentity(x, t) {
          var k :| 0 <= k < |front| && front[k] == x;
          assert !SameIdentity(ts[k], ts[|ts| - 1]);
        }
        NoMatching(front, t);
        assert SameIdentity(t, t);
        assert Matching(ts, t) == [] + [last] == [last];
        assert Matching(ts, t)[0] == last;
      } else {
        assert Matching(ts, t) == Matching(front, t);
      }
    }
  }

  /** Whether the transition of one report may be added to, or found in, these edges. */
  predicate EdgeFits(ts: seq<Transition>, t: Transition, promote: bool) {
    if promote then t in ts else forall x :: x in ts ==> !SameIdentity(x, t)
  }

  predicate DistinctPlatforms(reports: seq<Report>) {
    forall i, j :: 0 <= i < j < |reports| ==> !SameIdentity(TransitionOf(reports[i]), TransitionOf(reports[j]))
  }

  lemma {:induction false} GrowsExactlyWhen(rs: seq<Release>, ts: seq<Transition>, reports: seq<Report>, promote: bool)
    requires UniqueTransitions(ts) && DistinctPlatforms(reports)
    requires forall k :: 0 <= k < |reports| ==> Find(rs, reports[k].target) >= 0
    ensures AddTransitions(rs, ts, reports, promote).Some? <==>
              forall k :: 0 <= k < |reports| ==> !rs[Find(rs, reports[k].target)].revoked && EdgeFits(ts, TransitionOf(reports[k]), promote)
    decreases |reports|
  {
    hide Find, Matching, UniqueTransitions;
    if reports != [] {
      var front, last := reports[..|reports| - 1], reports[|reports| - 1];
      assert forall k :: 0 <= k < |front| ==> front[k] == reports[k];
      GrowsExactlyWhen(rs, ts, front, promote);
      if AddTransitions(rs, ts, front, promote).Some? {
        GrownBy(rs, ts, front, promote);
        var edges, t := AddTransitions(rs, ts, front, promote).value, TransitionOf(last);
        NoMatching(edges, t);
        if promote {
          OneMatching(ts, t);
        } else {
          forall x | x in TransitionsOf(front) ensures !SameIdentity(x, t) {
            var k :| 0 <= k < |front| && TransitionsOf(front)[k] == x;
            assert reports[k] == front[k];
          }
        }
      }
    }
  }

  lemma PlatformsDistinct(reports: seq<Report>, inputs: Inputs, now: nat)
    requires ReportsOk(reports, inputs, now)
    ensures DistinctPlatforms(reports)
    ensures forall k :: 0 <= k < |reports| ==> reports[k].target == reports[0].target
  {
    hide ReportOk;
  }

  lemma FindIs(rs: seq<Release>, v: string, r: Release)
    requires UniqueVersions(rs) && r in rs && r.version == v
    ensures Find(rs, v) >= 0 && rs[Find(rs, v)] == r
  {
    hide Find;
    var k :| 0 <= k < |rs| && rs[k] == r;
    Known(rs, k);
  }

  lemma AddReleaseUnique(rs: seq<Release>, version: string, root: Digest)
    requires UniqueVersions(rs) && AddRelease(rs, version, root).Some?
    ensures UniqueVersions(AddRelease(rs, version, root).value)
  {
    hide Find;
  }

  lemma AddReleaseWhen(base: Option<Catalog>, version: string, root: Digest)
    requires UniqueVersions(BaseReleases(base))
    ensures AddRelease(BaseReleases(base), version, root).Some? <==> RootAgrees(base, version, root)
  {
    hide Find;
    var rs := BaseReleases(base);
    var at := Find(rs, version);
    forall r | r in rs && r.version == version ensures at >= 0 && rs[at] == r {
      FindIs(rs, version, r);
    }
    if at >= 0 {
      assert rs[at] in rs;
    }
  }

  /** A document can be made exactly when nothing in it contradicts the base. */
  predicate Makeable(reports: seq<Report>, base: Option<Catalog>, roots: map<string, Digest>, promote: bool)
    requires reports != [] && reports[0].source in roots && reports[0].target in roots
  {
    var source, target := reports[0].source, reports[0].target;
    && RootAgrees(base, source, roots[source]) && RootAgrees(base, target, roots[target]) && TargetAlive(base, target)
    && (forall k :: 0 <= k < |reports| ==> EdgeFits(BaseTransitions(base), TransitionOf(reports[k]), promote))
    && (promote ==> base.Some? && base.value.stable != Some(target))
  }

  /** The second endpoint is compared with the base, not with the first. */
  lemma SecondRelease(base: Option<Catalog>, source: string, target: string, sourceRoot: Digest, targetRoot: Digest)
    requires UniqueVersions(BaseReleases(base)) && source != target && AddRelease(BaseReleases(base), source, sourceRoot).Some?
    ensures
      var withSource := AddRelease(BaseReleases(base), source, sourceRoot).value;
      && (AddRelease(withSource, target, targetRoot).Some? <==> RootAgrees(base, target, targetRoot))
      && (AddRelease(withSource, target, targetRoot).Some? ==>
            var all := AddRelease(withSource, target, targetRoot).value;
            && Find(all, target) >= 0
            && (!all[Find(all, target)].revoked <==> TargetAlive(base, target)))
  {
    hide Find, AddRelease, Lists;
    var rs := BaseReleases(base);
    var withSource := AddRelease(rs, source, sourceRoot).value;
    AddReleaseFacts(rs, source, sourceRoot);
    AddReleaseUnique(rs, source, sourceRoot);
    var extended := Some(Catalog(0, 0, 0, None, withSource, []));
    assert BaseReleases(extended) == withSource;
    AddReleaseWhen(extended, target, targetRoot);
    assert RootAgrees(extended, target, targetRoot) <==> RootAgrees(base, target, targetRoot);
    if AddRelease(withSource, target, targetRoot).Some? {
      var all := AddRelease(withSource, target, targetRoot).value;
      AddReleaseFacts(withSource, target, targetRoot);
      AddReleaseUnique(withSource, target, targetRoot);
      ListedIsFound(all, target, targetRoot);
      var found := all[Find(all, target)];
      assert found in all;
      forall r | r in rs && r.version == target ensures r == found {
        assert r in withSource && r in all;
        FindIs(all, target, r);
      }
      if Find(withSource, target) >= 0 {
        assert withSource[Find(withSource, target)] in withSource;
      }
    }
  }

  lemma ListedIsFound(rs: seq<Release>, version: string, root: Digest)
    requires Lists(rs, version, root)
    ensures Find(rs, version) >= 0
  {
  }

  /** The publisher makes a document exactly when the reports do not contradict the base. */
  lemma NextDocumentExactlyWhen(reports: seq<Report>, base: Option<Catalog>, reserved: nat, issued: nat, now: nat, inputs: Inputs,
                                promote: bool)
    requires ReportsOk(reports, inputs, now) && (base.Some? ==> WellFormed(base.value))
    ensures reports != [] && reports[0].source in inputs.roots && reports[0].target in inputs.roots
    ensures NextDocument(reports, base, reserved, issued, inputs.roots, promote).Some? <==>
              Makeable(reports, base, inputs.roots, promote)
  {
    hide AddRelease, AddTransitions, Sort, Find, RootAgrees, TargetAlive, EdgeFits, ReportOk, ReleaseOk, StableOk, TransitionOk,
      UniqueTransitions, UniqueVersions, DistinctPlatforms;
    FirstReport(reports, inputs, now);
    PlatformsDistinct(reports, inputs, now);
    var source, target := reports[0].source, reports[0].target;
    DifferentEndpoints(reports, inputs, now);
    BaseIsUnique(base);
    var rs := BaseReleases(base);
    AddReleaseWhen(base, source, inputs.roots[source]);
    if AddRelease(rs, source, inputs.roots[source]).Some? {
      SecondRelease(base, source, target, inputs.roots[source], inputs.roots[target]);
      var withSource := AddRelease(rs, source, inputs.roots[source]).value;
      if AddRelease(withSource, target, inputs.roots[target]).Some? {
        var all := AddRelease(withSource, target, inputs.roots[target]).value;
        GrowsExactlyWhen(all, BaseTransitions(base), reports, promote);
      }
    }
  }

  lemma DifferentEndpoints(reports: seq<Report>, inputs: Inputs, now: nat)
    requires ReportsOk(reports, inputs, now)
    ensures reports != [] && reports[0].source != reports[0].target
  {
    assert ReportOk(reports[0], inputs, now);
  }

  lemma BaseIsUnique(base: Option<Catalog>)
    requires base.Some? ==> WellFormed(base.value)
    ensures UniqueVersions(BaseReleases(base)) && UniqueTransitions(BaseTransitions(base))
  {
  }

  /** Every report of a built catalog is sealed, for one pair of releases at their published roots, on a platform of its own, and fresh. */
  lemma BuiltFromGoodReports(paths: seq<string>, base: Option<Catalog>, reserved: nat, issued: nat, now: nat, inputs: Inputs, promote: bool,
                             k: nat)
    requires BuildDocument(paths, base, reserved, issued, now, inputs, promote).Some?
    requires k < |BuildDocument(paths, base, reserved, issued, now, inputs, promote).value.0|
    ensures
      var reports := BuildDocument(paths, base, reserved, issued, now, inputs, promote).value.0;
      var r := reports[k];
      && |reports| == |paths| <= 2 && paths[k] in inputs.files && r == inputs.files[paths[k]].(path := paths[k])
      && r.sealed && (r.arch == "x86" || r.arch == "x64") && Fresh(r, now)
      && r.source == reports[0].source && r.target == reports[0].target && r.source != r.target
      && r.source in inputs.roots && inputs.roots[r.source] == r.sourceRoot && r.target in inputs.roots && inputs.roots[r.target] == r.targetRoot
      && (forall j :: 0 <= j < k ==> reports[j].arch != r.arch || reports[j].profile != r.profile)
  {
    hide Valid, NextDocument, ReadReports, Fresh, VersionOk;
    var reports := BuildDocument(paths, base, reserved, issued, now, inputs, promote).value.0;
    ReadAt(paths, inputs, k);
    assert ReportOk(reports[k], inputs, now);
  }

  lemma {:induction false} ReadAt(paths: seq<string>, inputs: Inputs, k: nat)
    requires ReadReports(paths, inputs).Some? && k < |ReadReports(paths, inputs).value|
    ensures |ReadReports(paths, inputs).value| == |paths| && paths[k] in inputs.files
    ensures ReadReports(paths, inputs).value[k] == inputs.files[paths[k]].(path := paths[k])
    decreases |paths|
  {
    ReadLength(paths, inputs);
    if k < |paths| - 1 {
      ReadLength(paths[..|paths| - 1], inputs);
      ReadAt(paths[..|paths| - 1], inputs, k);
    }
  }

  /** A report is fresh for fourteen days after a run of at most one day. */
  lemma FreshFor(r: Report, now: nat)
    ensures Fresh(r, now) <==>
              0 < r.started <= r.finished <= now && r.finished <= 253402300799 && r.finished <= r.started + 86400 && now <= r.finished + 1209600
  {
  }

  // ------------------------------------------------------------------ routes survive

  /** `next` keeps what `base` offers. */
  ghost predicate Extends(base: Catalog, next: Catalog) {
    && (forall r :: r in base.releases ==> r in next.releases)
    && (forall t :: t in base.transitions ==> t in next.transitions)
  }

  lemma ReleaseSurvives(base: Catalog, next: Catalog, v: string)
    requires WellFormed(base) && WellFormed(next) && Extends(base, next) && Find(base.releases, v) >= 0
    ensures Find(next.releases, v) >= 0
    ensures next.releases[Find(next.releases, v)] == base.releases[Find(base.releases, v)]
  {
    hide Find;
    var r := base.releases[Find(base.releases, v)];
    assert r in base.releases;
    assert r in next.releases;
    var k :| 0 <= k < |next.releases| && next.releases[k] == r;
    Known(next.releases, k);
  }

  lemma {:induction false} ChainSurvives(base: Catalog, next: Catalog, arch: string, profile: string, current: string, names: seq<string>)
    requires WellFormed(base) && WellFormed(next) && Extends(base, next)
    requires AdmittedChain(base, arch, profile, current, names)
    ensures AdmittedChain(next, arch, profile, current, names)
    decreases |names|
  {
    hide WellFormed, Find;
    if names != [] {
      var front := names[..|names| - 1];
      ChainSurvives(base, next, arch, profile, current, front);
      var k :| 0 <= k < |base.transitions| && Permits(base, base.transitions[k], arch, profile) &&
               base.transitions[k].from == LastName(current, front) && base.transitions[k].to == names[|names| - 1];
      var t := base.transitions[k];
      ReleaseSurvives(base, next, t.to);
      assert t in base.transitions;
      assert t in next.transitions;
      var j :| 0 <= j < |next.transitions| && next.transitions[j] == t;
      assert Permits(next, next.transitions[j], arch, profile);
    }
  }

  /**
   Whatever could be reached on the base can be reached on the next catalog, in no more
   hops; this includes "latest" unless the publication is a promotion.
   */
  lemma RoutesSurvive(paths: seq<string>, base: Catalog, reserved: nat, issued: nat, now: nat, inputs: Inputs, promote: bool,
                      current: string, manifest: Digest, requested: string, arch: string, profile: string)
    requires WellFormed(base)
    requires BuildDocument(paths, Some(base), reserved, issued, now, inputs, promote).Some?
    requires requested == "latest" ==> !promote
    requires RouteOf(ToNative(base), current, manifest, requested, arch, profile).Some?
    ensures
      var next := BuildDocument(paths, Some(base), reserved, issued, now, inputs, promote).value.1;
      && WellFormed(next)
      && RouteOf(ToNative(next), current, manifest, requested, arch, profile).Some?
      && |RouteOf(ToNative(next), current, manifest, requested, arch, profile).value| <=
         |RouteOf(ToNative(base), current, manifest, requested, arch, profile).value|
  {
    hide BuildDocument, WellFormed, AdmittedChain, RouteOf, Find;
    BaseIsKept(paths, base, reserved, issued, now, inputs, promote);
    var next := BuildDocument(paths, Some(base), reserved, issued, now, inputs, promote).value.1;
    assert Extends(base, next);
    var rs := RouteOf(ToNative(base), current, manifest, requested, arch, profile).value;
    RoutesAreSound(base, current, manifest, requested, arch, profile);
    ReleaseSurvives(base, next, current);
    ChainSurvives(base, next, arch, profile, current, Versions(rs));
    if rs == [] {
      InstalledNotRevoked(base, current, manifest, requested, arch, profile);
    }
    RoutesAreCompleteAndShortest(next, current, manifest, requested, arch, profile, Versions(rs));
  }

  lemma InstalledNotRevoked(c: Catalog, current: string, manifest: Digest, requested: string, arch: string, profile: string)
    requires WellFormed(c) && RouteOf(ToNative(c), current, manifest, requested, arch, profile) == Some([])
    ensures Find(c.releases, current) >= 0 && !c.releases[Find(c.releases, current)].revoked
  {
    hide WellFormed, AdmittedChain, GraphOf, Route, Find;
    RoutesAreSound(c, current, manifest, requested, arch, profile);
    RoutesNotRevoked(c, current, manifest, requested, arch, profile);
  }
}

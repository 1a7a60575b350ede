/** The signed catalog document (l4release/catalog.py) and its native form (tools/l4common/catalog.c). */
module CatalogModel {
  import opened StoreBytes

  type Digest = string

  datatype Release = Release(version: string, manifest: Digest, revoked: bool)

  datatype Transition = Transition(from: string, to: string, arch: string, profile: string, evidence: Digest)

  datatype Catalog = Catalog(
    revision: nat, issued: nat, expires: nat, stable: Option<string>,
    releases: seq<Release>, transitions: seq<Transition>)

  const MAX_RELEASES: nat := 24
  const MAX_TRANSITIONS: nat := 24
  const MAX_TIME: nat := 253402300799

  // ------------------------------------------------------------------ text

  predicate Digit(c: char) {
    '0' <= c <= '9'
  }

  predicate Hex(c: char) {
    Digit(c) || 'a' <= c <= 'f'
  }

  predicate DigestOk(d: Digest) {
    |d| == 64 && (forall c :: c in d ==> Hex(c)) && exists c :: c in d && c != '0'
  }

  function Parts(s: string): (r: seq<string>)
    ensures |r| > 0
  {
    if s == "" then [""]
    else
      var rest := Parts(s[1..]);
      if s[0] == '.' then [""] + rest else [[s[0]] + rest[0]] + rest[1..]
  }

  function Value(s: string): nat
    requires forall c :: c in s ==> Digit(c)
  {
    if s == "" then 0
    else
      assert Digit(s[|s| - 1]);
      10 * Value(s[..|s| - 1]) + (s[|s| - 1] - '0') as nat
  }

  predicate Part(s: string) {
    0 < |s| && (forall c :: c in s ==> Digit(c)) && (|s| == 1 || s[0] != '0') && Value(s) <= 65535
  }

  predicate VersionOk(v: string) {
    |v| < 64 && |Parts(v)| == 3 && Part(Parts(v)[0]) && Part(Parts(v)[1]) && Part(Parts(v)[2])
  }

  predicate NoDot(s: string) {
    forall c :: c in s ==> c != '.'
  }

  /** Text without a dot is one part, and a dot separates. */
  lemma {:induction false} PartsOf(s: string, rest: string)
    requires NoDot(s)
    ensures Parts(s) == [s] && Parts(s + "." + rest) == [s] + Parts(rest)
    decreases |s|
  {
    if s == "" {
      assert "." + rest == s + "." + rest && ("." + rest)[1..] == rest;
    } else {
      var whole := s + "." + rest;
      assert whole[1..] == s[1..] + "." + rest && s == [s[0]] + s[1..] && s[0] in s;
      assert forall c :: c in s[1..] ==> c in s;
      PartsOf(s[1..], rest);
      assert whole[0] == s[0] != '.';
      assert Parts(whole) == [[s[0]] + s[1..]] + Parts(rest);
    }
  }

  lemma {:induction false} PartsJoin(s: string) returns (first: string, rest: string)
    ensures NoDot(first) && Parts(s)[0] == first
    ensures s == (if |Parts(s)| == 1 then first else first + "." + rest) && (|Parts(s)| > 1 ==> Parts(rest) == Parts(s)[1..])
  {
    if s == "" {
      first, rest := "", "";
    } else {
      assert s == [s[0]] + s[1..];
      var a, b := PartsJoin(s[1..]);
      if s[0] == '.' {
        first, rest := "", s[1..];
        assert s == "" + "." + rest;
      } else {
        first, rest := [s[0]] + a, b;
      }
    }
  }

  lemma PartHasNoDot(s: string)
    requires Part(s)
    ensures NoDot(s)
  {
  }

  /** A version is exactly three canonical numbers up to 65535, separated by dots, in fewer than 64 characters. */
  lemma VersionExactlyWhen(v: string)
    ensures VersionOk(v) <==>
              |v| < 64 && exists a, b, c :: Part(a) && Part(b) && Part(c) && v == a + "." + (b + "." + c)
  {
    hide Parts, Part;
    if |v| < 64 {
      if a, b, c :| Part(a) && Part(b) && Part(c) && v == a + "." + (b + "." + c) {
        PartHasNoDot(a);
        PartHasNoDot(b);
        PartHasNoDot(c);
        PartsOf(a, b + "." + c);
        PartsOf(b, c);
        PartsOf(c, "");
      }
      if VersionOk(v) {
        var a, r := PartsJoin(v);
        var b, c := PartsJoin(r);
        var d, e := PartsJoin(c);
        assert v == a + "." + (b + "." + c) && c == d;
      }
    }
  }

  predicate ArchOk(a: string) {
    a == "x86" || a == "x64"
  }

  predicate LowerOrDigit(c: char) {
    'a' <= c <= 'z' || Digit(c)
  }

  predicate ProfileOk(p: string) {
    0 < |p| < 64 && LowerOrDigit(p[0]) && forall c :: c in p ==> LowerOrDigit(c) || c == '_' || c == '.' || c == '-'
  }

  // ------------------------------------------------------------------ lookup

  /** The first release with that version, or -1. */
  function Find(rs: seq<Release>, v: string): (r: int)
    ensures -1 <= r < |rs|
    ensures r >= 0 ==> rs[r].version == v
    ensures r < 0 ==> forall k :: 0 <= k < |rs| ==> rs[k].version != v
    ensures forall k :: 0 <= k < r ==> rs[k].version != v
  {
    if rs == [] then -1
    else
      var r := Find(rs[..|rs| - 1], v);
      if r >= 0 then r else if rs[|rs| - 1].version == v then |rs| - 1 else -1
  }

  predicate UniqueVersions(rs: seq<Release>) {
    forall i, j :: 0 <= i < j < |rs| ==> rs[i].version != rs[j].version
  }

  predicate SameIdentity(a: Transition, b: Transition) {
    a.from == b.from && a.to == b.to && a.arch == b.arch && a.profile == b.profile
  }

  predicate UniqueTransitions(ts: seq<Transition>) {
    forall i, j :: 0 <= i < j < |ts| ==> !SameIdentity(ts[i], ts[j])
  }

  predicate ReleaseOk(r: Release) {
    VersionOk(r.version) && DigestOk(r.manifest)
  }

  predicate TransitionOk(rs: seq<Release>, t: Transition) {
    Find(rs, t.from) >= 0 && Find(rs, t.to) >= 0 && t.from != t.to && ArchOk(t.arch) && ProfileOk(t.profile) &&
    DigestOk(t.evidence)
  }

  predicate StableOk(c: Catalog) {
    c.stable.None? || (Find(c.releases, c.stable.value) >= 0 && !c.releases[Find(c.releases, c.stable.value)].revoked)
  }

  /** Everything validate_catalog requires besides the clock. */
  predicate WellFormed(c: Catalog) {
    && 0 < c.revision < 0x1_0000_0000_0000_0000
    && 0 < c.issued <= MAX_TIME && 0 < c.expires <= MAX_TIME
    && 1 <= |c.releases| <= MAX_RELEASES
    && |c.transitions| <= MAX_TRANSITIONS
    && (forall k :: 0 <= k < |c.releases| ==> ReleaseOk(c.releases[k]))
    && UniqueVersions(c.releases)
    && StableOk(c)
    && (forall k :: 0 <= k < |c.transitions| ==> TransitionOk(c.releases, c.transitions[k]))
    && UniqueTransitions(c.transitions)
  }

  predicate Valid(c: Catalog, now: nat) {
    WellFormed(c) && 0 < now <= MAX_TIME && c.issued <= now < c.expires
  }

  /** What makes a catalog well formed, with every figure written out. */
  lemma WellFormedInFigures(c: Catalog)
    ensures WellFormed(c) <==>
              && 1 <= c.revision <= 18446744073709551615 && 1 <= c.issued <= 253402300799 && 1 <= c.expires <= 253402300799
              && 1 <= |c.releases| <= 24 && |c.transitions| <= 24
              && (forall i :: 0 <= i < |c.releases| ==> VersionOk(c.releases[i].version) && DigestOk(c.releases[i].manifest))
              && (forall i, j :: 0 <= i < j < |c.releases| ==> c.releases[i].version != c.releases[j].version)
              && (c.stable.Some? ==> exists i :: 0 <= i < |c.releases| && c.releases[i].version == c.stable.value && !c.releases[i].revoked)
              && (forall k :: 0 <= k < |c.transitions| ==> EndpointsOk(c.releases, c.transitions[k]))
              && (forall i, j :: 0 <= i < j < |c.transitions| ==> Identity(c.transitions[i]) != Identity(c.transitions[j]))
  {
    hide VersionOk, DigestOk, ProfileOk, Find;
    forall k | 0 <= k < |c.transitions| ensures TransitionOk(c.releases, c.transitions[k]) <==> EndpointsOk(c.releases, c.transitions[k]) {
      EndpointsKnown(c.releases, c.transitions[k]);
    }
    assert UniqueTransitions(c.transitions) <==>
      forall i, j :: 0 <= i < j < |c.transitions| ==> Identity(c.transitions[i]) != Identity(c.transitions[j]) by { UniqueIdentities(c.transitions); }
    if UniqueVersions(c.releases) { StableIs(c); }
    assert (forall k :: 0 <= k < |c.releases| ==> ReleaseOk(c.releases[k])) <==>
      forall i :: 0 <= i < |c.releases| ==> VersionOk(c.releases[i].version) && DigestOk(c.releases[i].manifest) by { ReleasesOk(c.releases); }
  }

  lemma ReleasesOk(rs: seq<Release>)
    ensures (forall k :: 0 <= k < |rs| ==> ReleaseOk(rs[k])) <==>
      forall i :: 0 <= i < |rs| ==> VersionOk(rs[i].version) && DigestOk(rs[i].manifest)
  {
    hide VersionOk, DigestOk;
    if forall k :: 0 <= k < |rs| ==> ReleaseOk(rs[k]) {
      forall i | 0 <= i < |rs| ensures VersionOk(rs[i].version) && DigestOk(rs[i].manifest) {
        assert ReleaseOk(rs[i]);
      }
    }
  }

  /** Two different listed releases, a known architecture, a profile and an evidence digest. */
  predicate EndpointsOk(rs: seq<Release>, t: Transition) {
    && (exists i :: 0 <= i < |rs| && rs[i].version == t.from) && (exists i :: 0 <= i < |rs| && rs[i].version == t.to)
    && t.from != t.to && (t.arch == "x86" || t.arch == "x64") && ProfileOk(t.profile) && DigestOk(t.evidence)
  }

  lemma EndpointsKnown(rs: seq<Release>, t: Transition)
    ensures TransitionOk(rs, t) <==> EndpointsOk(rs, t)
  {
    hide Find, ProfileOk, DigestOk;
    Listed(rs, t.from);
    Listed(rs, t.to);
  }

  lemma Listed(rs: seq<Release>, v: string)
    ensures Find(rs, v) >= 0 <==> exists i :: 0 <= i < |rs| && rs[i].version == v
  {
    hide Find;
    if Find(rs, v) >= 0 { assert rs[Find(rs, v)].version == v; }
  }

  lemma UniqueIdentities(ts: seq<Transition>)
    ensures UniqueTransitions(ts) <==> forall i, j :: 0 <= i < j < |ts| ==> Identity(ts[i]) != Identity(ts[j])
  {
    assert forall i, j :: 0 <= i < j < |ts| ==> (SameIdentity(ts[i], ts[j]) <==> Identity(ts[i]) == Identity(ts[j]));
  }

  lemma StableIs(c: Catalog)
    requires UniqueVersions(c.releases)
    ensures StableOk(c) <==>
              (c.stable.Some? ==> exists i :: 0 <= i < |c.releases| && c.releases[i].version == c.stable.value && !c.releases[i].revoked)
  {
    hide Find;
    if c.stable.Some? {
      Listed(c.releases, c.stable.value);
      var at := Find(c.releases, c.stable.value);
      if at >= 0 {
        assert c.releases[at].version == c.stable.value;
      }
    }
  }

  // ------------------------------------------------------------- the validator

  /** validate_catalog: the releases go into a map and the transition identities into a set. */
  method ValidateCatalog(c: Catalog, now: nat) returns (ok: bool)
    ensures ok <==> Valid(c, now)
  {
    hide ReleaseOk, TransitionOk, UniqueVersions, UniqueTransitions;
    if !(0 < c.revision < 0x1_0000_0000_0000_0000) || !(0 < c.issued <= MAX_TIME) || !(0 < c.expires <= MAX_TIME) ||
       !(0 < now <= MAX_TIME) {
      return false;
    }
    if !(c.issued <= now < c.expires) {
      return false;
    }
    if !(1 <= |c.releases| <= MAX_RELEASES) || |c.transitions| > MAX_TRANSITIONS {
      return false;
    }
    var known: map<string, Release>;
    ok, known := CollectReleases(c.releases);
    if !ok {
      return false;
    }
    assert forall v: string :: v in known <==> Find(c.releases, v) >= 0;
    if c.stable.Some? && (c.stable.value !in known || known[c.stable.value].revoked) {
      return false;
    }
    ok := CheckTransitions(c.releases, c.transitions, known);
  }

  method CollectReleases(rs: seq<Release>) returns (ok: bool, known: map<string, Release>)
    ensures ok <==> UniqueVersions(rs) && forall k :: 0 <= k < |rs| ==> ReleaseOk(rs[k])
    ensures ok ==> forall v :: v in known <==> Find(rs, v) >= 0
    ensures ok ==> forall v :: v in known ==> known[v] == rs[Find(rs, v)]
  {
    hide ReleaseOk;
    known := map[];
    for n := 0 to |rs|
      invariant UniqueVersions(rs[..n]) && forall k :: 0 <= k < n ==> ReleaseOk(rs[k])
      invariant forall k :: 0 <= k < n ==> rs[k].version in known && known[rs[k].version] == rs[k]
      invariant forall v :: v in known ==> exists k :: 0 <= k < n && rs[k].version == v
    {
      if !ReleaseOk(rs[n]) || rs[n].version in known {
        if rs[n].version in known {
          var k :| 0 <= k < n && rs[k].version == rs[n].version;
          assert !UniqueVersions(rs);
        }
        return false, known;
      }
      known := known[rs[n].version := rs[n]];
    }
    assert rs[..|rs|] == rs;
    return true, known;
  }

  method CheckTransitions(rs: seq<Release>, ts: seq<Transition>, known: map<string, Release>) returns (ok: bool)
    requires forall v :: v in known <==> Find(rs, v) >= 0
    ensures ok <==> UniqueTransitions(ts) && forall k :: 0 <= k < |ts| ==> TransitionOk(rs, ts[k])
  {
    hide TransitionOk, UniqueTransitions, Identity;
    var edges: set<(string, string, string, string)> := {};
    NoTransitions(ts);
    for n := 0 to |ts|
      invariant UniqueTransitions(ts[..n]) && forall k :: 0 <= k < n ==> TransitionOk(rs, ts[k])
      invariant forall k :: 0 <= k < n ==> Identity(ts[k]) in edges
      invariant forall e :: e in edges ==> exists k :: 0 <= k < n && Identity(ts[k]) == e
    {
      var t := ts[n];
      TransitionKnown(rs, t, known);
      if t.from !in known || t.to !in known || t.from == t.to || !ArchOk(t.arch) || !ProfileOk(t.profile) ||
         !DigestOk(t.evidence) {
        return false;
      }
      if Identity(t) in edges {
        var k :| 0 <= k < n && Identity(ts[k]) == Identity(t);
        Repeated(ts, k, n);
        return false;
      }
      OneMoreTransition(ts, n);
      edges := edges + {Identity(t)};
    }
    assert ts[..|ts|] == ts;
    return true;
  }

  lemma TransitionKnown(rs: seq<Release>, t: Transition, known: map<string, Release>)
    requires forall v :: v in known <==> Find(rs, v) >= 0
    ensures TransitionOk(rs, t) <==>
              t.from in known && t.to in known && t.from != t.to && ArchOk(t.arch) && ProfileOk(t.profile) && DigestOk(t.evidence)
  {
    hide Find, ProfileOk, DigestOk, ArchOk;
  }

  lemma NoTransitions(ts: seq<Transition>)
    ensures UniqueTransitions(ts[..0])
  {
  }

  lemma Repeated(ts: seq<Transition>, k: nat, n: nat)
    requires k < n < |ts| && Identity(ts[k]) == Identity(ts[n])
    ensures !UniqueTransitions(ts)
  {
    assert SameIdentity(ts[k], ts[n]);
  }

  lemma OneMoreTransition(ts: seq<Transition>, n: nat)
    requires n < |ts| && UniqueTransitions(ts[..n]) && forall k :: 0 <= k < n ==> Identity(ts[k]) != Identity(ts[n])
    ensures UniqueTransitions(ts[..n + 1])
  {
    var more := ts[..n + 1];
    forall i, j | 0 <= i < j < |more| ensures !SameIdentity(more[i], more[j]) {
      if j < n { assert more[i] == ts[..n][i] && more[j] == ts[..n][j]; }
    }
  }

  function Identity(t: Transition): (string, string, string, string) {
    (t.from, t.to, t.arch, t.profile)
  }
}

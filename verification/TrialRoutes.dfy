/**
 What the private catalog of a trial offers to the routers: the one hop under trial and
 nothing else.
 */
module TrialRoutes {
  import opened StoreBytes
  import opened CatalogModel
  import opened CatalogRouting
  import CatalogBuild
  import opened PublicationProtocol
  import opened PublicationSafety
  import opened PublicationHistory

  /** A catalog of two releases and one transition between them. */
  predicate IsHop(c: Catalog, source: Release, target: Release, arch: string, profile: string) {
    && c.releases == [source, target] && c.stable == None
    && |c.transitions| == 1 && c.transitions[0].from == source.version && c.transitions[0].to == target.version
    && c.transitions[0].arch == arch && c.transitions[0].profile == profile
  }

  lemma LatestIsNoVersion()
    ensures !VersionOk("latest")
  {
    assert ['t'] + "" == "t" && ['s'] + "t" == "st" && ['e'] + "st" == "est" && ['t'] + "est" == "test";
    assert ['a'] + "test" == "atest" && ['l'] + "atest" == "latest";
    assert Parts("") == [""];
    assert "t"[1..] == "" && Parts("t") == ["t"];
    assert "st"[1..] == "t" && Parts("st") == ["st"];
    assert "est"[1..] == "st" && Parts("est") == ["est"];
    assert "test"[1..] == "est" && Parts("test") == ["test"];
    assert "atest"[1..] == "test" && Parts("atest") == ["atest"];
    assert "latest"[1..] == "atest" && Parts("latest") == ["latest"];
  }

  lemma HopNames(c: Catalog, source: Release, target: Release, arch: string, profile: string)
    requires WellFormed(c) && IsHop(c, source, target, arch, profile)
    ensures source.version != target.version && source.version != "latest" && target.version != "latest"
    ensures Find(c.releases, source.version) == 0 && Find(c.releases, target.version) == 1
  {
    hide VersionOk, Find, StableOk, DigestOk;
    LatestIsNoVersion();
    assert ReleaseOk(c.releases[0]) && ReleaseOk(c.releases[1]);
    Known(c.releases, 0);
    Known(c.releases, 1);
  }

  lemma HopChain(c: Catalog, source: Release, target: Release, arch: string, profile: string)
    requires WellFormed(c) && IsHop(c, source, target, arch, profile) && !target.revoked
    ensures AdmittedChain(c, arch, profile, source.version, [target.version])
  {
    hide WellFormed, Find;
    HopNames(c, source, target, arch, profile);
    var names := [target.version];
    assert names[..0] == [];
    assert AdmittedChain(c, arch, profile, source.version, []);
    assert Permits(c, c.transitions[0], arch, profile);
  }

  /** The trial's route is exactly the hop, and there is no way back. */
  lemma HopRoutes(c: Catalog, source: Release, target: Release, arch: string, profile: string)
    requires WellFormed(c) && IsHop(c, source, target, arch, profile) && !target.revoked
    ensures RouteOf(ToNative(c), source.version, source.manifest, target.version, arch, profile) == Some([target])
    ensures RouteOf(ToNative(c), target.version, target.manifest, source.version, arch, profile) == None
  {
    hide WellFormed, RouteOf, Find, Permits, ToNative;
    HopNames(c, source, target, arch, profile);
    HopChain(c, source, target, arch, profile);
    RoutesAreCompleteAndShortest(c, source.version, source.manifest, target.version, arch, profile, [target.version]);
    RoutesAreSound(c, source.version, source.manifest, target.version, arch, profile);
    var rs := RouteOf(ToNative(c), source.version, source.manifest, target.version, arch, profile).value;
    assert |rs| == 1 && rs[0].version == target.version && rs[0] in c.releases;
    assert rs == [target];
    forall rs: seq<Release> | |rs| == 1 ensures !AdmittedChain(c, arch, profile, target.version, Versions(rs)) {
      NoHopBack(c, source, target, arch, profile, rs);
    }
    if RouteOf(ToNative(c), target.version, target.manifest, source.version, arch, profile).Some? {
      RoutesAreSound(c, target.version, target.manifest, source.version, arch, profile);
      assert false;
    }
  }

  lemma NoHopBack(c: Catalog, source: Release, target: Release, arch: string, profile: string, rs: seq<Release>)
    requires IsHop(c, source, target, arch, profile) && source.version != target.version && |rs| == 1
    ensures !AdmittedChain(c, arch, profile, target.version, Versions(rs))
  {
    hide Permits;
    assert Versions(rs)[..0] == [];
  }

  lemma DocumentIsHop(p: TrialPlan, revision: nat, issued: nat, inputs: CatalogBuild.Inputs, facts: TrialFacts)
    requires TrialDocument(p, revision, issued, inputs, facts).Some? && SameScope(p, inputs, facts)
    ensures
      var c := TrialDocument(p, revision, issued, inputs, facts).value;
      && IsHop(c, Release(p.source, p.sourceRoot, false), Release(p.target, p.targetRoot, false), p.arch, facts.profile)
      && c.revision == revision && c.issued == issued && c.expires == issued + 86400 && c.transitions[0].evidence == facts.evidence
  {
  }

  /** The catalog of a trial, whoever made it. */
  predicate OffersOnlyItsHop(p: TrialPlan, profile: string)
    requires WellFormed(p.catalog)
  {
    var source, target := Release(p.source, p.sourceRoot, false), Release(p.target, p.targetRoot, false);
    && p.catalog.releases == [source, target] && p.catalog.stable == None
    && p.catalog.revision == p.revision && p.catalog.expires == p.catalog.issued + 86400
    && RouteOf(ToNative(p.catalog), p.source, p.sourceRoot, p.target, p.arch, profile) == Some([target])
    && RouteOf(ToNative(p.catalog), p.target, p.targetRoot, p.source, p.arch, profile) == None
  }

  /** A planned trial offers exactly the hop from its source to its target, at the published roots, for one day. */
  lemma PlannedTrialOffersItsHop(s: State, runId: string, source: string, target: string, arch: string, now: nat, inputs: CatalogBuild.Inputs,
                                 facts: TrialFacts)
    requires PlanTrial(s, runId, source, target, arch, now, inputs, facts).Some?
    ensures
      var p := PlanTrial(s, runId, source, target, arch, now, inputs, facts).value;
      && p.source == source && p.target == target && p.arch == arch && p.runId == runId
      && inputs.roots[source] == p.sourceRoot && inputs.roots[target] == p.targetRoot
      && p.catalog.issued == now && p.platform == facts.platform && p.checkpoint == inputs.checkpoint
      && (WellFormed(p.catalog) ==> OffersOnlyItsHop(p, facts.profile))
  {
    hide BaseOf, Reserved, LoaderAccepts, WellFormed, RouteOf;
    var p := PlanTrial(s, runId, source, target, arch, now, inputs, facts).value;
    DocumentIsHop(p, p.revision, now, inputs, facts);
    if WellFormed(p.catalog) {
      HopRoutes(p.catalog, Release(p.source, p.sourceRoot, false), Release(p.target, p.targetRoot, false), p.arch, facts.profile);
    }
  }

  /** And so does every trial that is admitted as new. */
  lemma AdmittedTrialOffersItsHop(s: State, p: TrialPlan, now: nat, inputs: CatalogBuild.Inputs, facts: TrialFacts)
    requires AdmitTrial(s, p, now, inputs, facts) == Some(false)
    ensures WellFormed(p.catalog) && OffersOnlyItsHop(p, facts.profile)
  {
    hide BaseOf, Reserved, LoaderAccepts, WellFormed, RouteOf, SameScope;
    assert Some(p.catalog) == TrialDocument(p, p.revision, p.catalog.issued, inputs, facts) && SameScope(p, inputs, facts);
    DocumentIsHop(p, p.revision, p.catalog.issued, inputs, facts);
    HopRoutes(p.catalog, Release(p.source, p.sourceRoot, false), Release(p.target, p.targetRoot, false), p.arch, facts.profile);
  }

  /** What every admitted trial agrees with: the published roots, the platform, the source checkpoint and the clock. */
  lemma AdmittedTrialIsCurrent(s: State, p: TrialPlan, now: nat, inputs: CatalogBuild.Inputs, facts: TrialFacts)
    requires AdmitTrial(s, p, now, inputs, facts).Some?
    ensures p.source in inputs.roots && inputs.roots[p.source] == p.sourceRoot
    ensures p.target in inputs.roots && inputs.roots[p.target] == p.targetRoot
    ensures p.source != p.target && (p.arch == "x86" || p.arch == "x64") && p.platform == facts.platform
    ensures p.checkpoint == inputs.checkpoint && p.checkpoint.clean
    ensures WellFormed(p.catalog) && p.catalog.issued <= now < p.catalog.expires
  {
    hide BaseOf, Reserved, LoaderAccepts, WellFormed, TrialDocument;
  }
}

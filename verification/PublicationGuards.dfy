/**
 What stops the publisher and the trial runner on any state at all, whoever wrote it: the
 refusals that a publisher left alone never meets.
 */
module PublicationGuards {
  import opened StoreBytes
  import opened Interruption
  import opened CatalogModel
  import opened CatalogBuild
  import opened PublicationProtocol
  import opened PublicationSafety
  import opened PublicationHistory

  /** The public pair is whole and authentic, and neither rolled back nor changed below the floor. */
  predicate PairStands(s: State) {
    var f := FloorOf(s);
    if s.data.None? then s.signature.None? && f.revision == 0
    else
      && PairAuthentic(s.data, s.signature)
      && (s.data.value.catalog.revision > f.revision || (s.data.value.catalog.revision == f.revision && s.data == f.sha))
  }

  /** On any state a base is accepted exactly when nothing is pending, the pair stands and the clock has not gone back. */
  lemma BaseStandsExactlyWhen(s: State, now: nat)
    ensures BaseOf(s, now).Some? <==>
              && FloorOf(s).pending.None? && PairStands(s) && now >= FloorOf(s).time
              && (s.data.Some? ==> s.data.value.catalog.issued <= now)
    ensures BaseOf(s, now).Some? ==> BaseOf(s, now).value == CatalogOf(s.data)
  {
    hide Authentic;
  }

  lemma NoBaseNoWrites(s: State, run: Run)
    requires FloorOf(s).pending.None? && forall now: nat :: BaseOf(s, now).None?
    ensures WritesOf(s, run) == []
  {
    hide BaseOf, Reserved, LoaderAccepts, PlanFor, Paths;
    match run
    case Publication(plan, now, inputs, kept) =>
      assert BaseOf(s, now).None?;
      assert Admit(s, plan, now, inputs).None?;
    case Trial(p, now, inputs, facts, kept) =>
      assert BaseOf(s, p.catalog.issued).None?;
  }

  /** A public pair that is incomplete, unauthentic, rolled back or changed at the floor's revision stops everything. */
  lemma TamperedPairStopsEverything(s: State, run: Run)
    requires FloorOf(s).pending.None? && !PairStands(s)
    ensures WritesOf(s, run) == []
  {
    hide WritesOf, BaseOf, PairStands;
    forall now: nat ensures BaseOf(s, now).None? {
      BaseStandsExactlyWhen(s, now);
    }
    NoBaseNoWrites(s, run);
  }

  /** With a publication pending, a public half that is neither the old nor the new one stops everything. */
  lemma UnknownHalfStopsEverything(s: State, run: Run)
    requires FloorOf(s).pending.Some?
    requires
      var p := FloorOf(s).pending.value;
      || (s.data != p.plan.baseSha && s.data != Some(Document(p.plan.catalog)))
      || (s.signature != p.plan.baseSignature && s.signature != Some(SignatureOf(Document(p.plan.catalog))))
    ensures WritesOf(s, run) == []
  {
    hide Authenticate, Reserved, LoaderAccepts, BuildDocument, Paths, RetainedPair;
    if run.Publication? && run.plan == FloorOf(s).pending.value.plan {
      assert Admit(s, run.plan, run.now, run.inputs).None?;
    } else {
      OnlyThePendingPlanProceeds(s, run);
    }
  }

  /** A reservation whose trial directory does not hold exactly its signed plan and catalog stops everything. */
  lemma BrokenReservationStopsEverything(s: State, run: Run)
    requires s.reservation.Some?
    requires
      var v := s.reservation.value;
      || v.revision !in s.trialDirs || v.revision !in s.trialPlanSig || v.revision !in s.trialCatalogSig
      || Lookup(s.trialPlan, v.revision) != Some(v.plan) || Lookup(s.trialCatalog, v.revision) != Some(v.catalog)
      || v.catalog != Document(v.plan.catalog) || v.plan.catalog.revision != v.revision || !Authentic(v.plan.catalog)
    ensures Reserved(s).None? && WritesOf(s, run) == []
  {
    hide Authenticate, LoaderAccepts, PlanFor, Paths, Authentic, BaseOf, Ancestry, TrialDocument;
    assert Reserved(s).None?;
  }

  /** A floor that does not pass its loader stops everything. */
  lemma UnreadableFloorStopsEverything(s: State, run: Run)
    requires !LoaderAccepts(FloorOf(s))
    ensures WritesOf(s, run) == []
  {
    hide LoaderAccepts, PlanFor, Paths, BaseOf, Ancestry, Reserved, TrialDocument;
  }

  /** What the loader accepts, in figures. */
  lemma LoaderInFigures(f: Floor)
    ensures LoaderAccepts(f) <==>
              && f.revision <= 18446744073709551615 && f.time <= 253402300799
              && (f.revision == 0 ==> f.sha.None? && f.time == 0) && (f.revision != 0 ==> f.sha.Some? && f.time != 0)
              && (f.pending.Some? ==> f.pending.value.revision > f.revision && f.pending.value.revision <= 18446744073709551615)
  {
  }

  // ------------------------------------------------------------------ evidence comes first

  predicate IsEvidence(w: Write) {
    w.PutEvidence? || w.PutEvidenceSig?
  }

  predicate AllEvidence(ws: seq<Write>) {
    forall k :: 0 <= k < |ws| ==> IsEvidence(ws[k])
  }

  predicate NoEvidence(ws: seq<Write>) {
    forall k :: 0 <= k < |ws| ==> !IsEvidence(ws[k])
  }

  lemma {:induction false} EvidencePartIsEvidence(s: State, reports: seq<Report>)
    ensures AllEvidence(EvidencePart(s, reports).writes)
    decreases |reports|
  {
    hide ApplyAll;
    if reports != [] {
      EvidencePartIsEvidence(ApplyAll(s, EvidenceOne(s, reports[0]).writes), reports[1..]);
    }
  }

  lemma {:induction false} EvidenceStays(s: State, ws: seq<Write>)
    requires NoEvidence(ws)
    ensures ApplyAll(s, ws).evidence == s.evidence && ApplyAll(s, ws).evidenceSig == s.evidenceSig
    decreases |ws|
  {
    hide Apply;
    if ws != [] {
      OtherWrite(s, ws[0]);
      assert forall k :: 0 <= k < |ws[1..]| ==> ws[1..][k] == ws[k + 1];
      EvidenceStays(Apply(s, ws[0]), ws[1..]);
    }
  }

  lemma OtherWrite(s: State, w: Write)
    requires !IsEvidence(w)
    ensures Apply(s, w).evidence == s.evidence && Apply(s, w).evidenceSig == s.evidenceSig
  {
  }

  lemma ThenNoEvidence(a: Part, b: Part)
    requires NoEvidence(a.writes) && NoEvidence(b.writes)
    ensures NoEvidence(Then(a, b).writes)
  {
    hide IsEvidence;
  }

  lemma ArchiveHasNoEvidence(s: State, data: Bytes)
    requires data.Document?
    ensures NoEvidence(ArchivePart(s, data).writes)
  {
  }

  lemma AnnounceHasNoEvidence(s: State, plan: Plan, pair: Pair, now: nat)
    ensures NoEvidence(AnnouncePart(s, plan, pair, now).writes)
  {
    hide StagePart, Then;
    StageHasNoEvidence(s, plan, pair);
    ThenNoEvidence(StagePart(s, plan, pair), Part([SetFloor(PendingFloor(plan, now))], true));
  }

  lemma SwitchHasNoEvidence(s: State, plan: Plan, now: nat)
    ensures NoEvidence(SwitchPart(s, plan, now))
  {
  }

  lemma AfterEvidence(s: State, plan: Plan, pair: Pair, now: nat)
    ensures NoEvidence(Then(ArchivePart(s, Document(plan.catalog)), Then(AnnouncePart(s, plan, pair, now), Part(SwitchPart(s, plan, now), true))).writes)
  {
    hide ArchivePart, AnnouncePart, SwitchPart, Then, NoEvidence;
    ArchiveHasNoEvidence(s, Document(plan.catalog));
    AnnounceHasNoEvidence(s, plan, pair, now);
    SwitchHasNoEvidence(s, plan, now);
    ThenNoEvidence(AnnouncePart(s, plan, pair, now), Part(SwitchPart(s, plan, now), true));
    ThenNoEvidence(ArchivePart(s, Document(plan.catalog)), Then(AnnouncePart(s, plan, pair, now), Part(SwitchPart(s, plan, now), true)));
  }

  lemma StageHasNoEvidence(s: State, plan: Plan, pair: Pair)
    ensures NoEvidence(StagePart(s, plan, pair).writes)
  {
    hide StageNew, StageOld, Then, NoEvidence;
    NewHasNoEvidence(s, plan);
    OldHasNoEvidence(s, plan.catalog.revision, pair);
    ThenNoEvidence(StageNew(s, plan), StageOld(s, plan.catalog.revision, pair));
  }

  lemma NewHasNoEvidence(s: State, plan: Plan)
    ensures NoEvidence(StageNew(s, plan).writes)
  {
  }

  lemma OldHasNoEvidence(s: State, r: nat, pair: Pair)
    ensures NoEvidence(StageOld(s, r, pair).writes)
  {
  }

  lemma HeldIs(t: State, r: Report)
    requires HoldsReport(t, r)
    ensures r.sha in t.evidence && t.evidence[r.sha] == r.sha && r.sha in t.evidenceSig && t.evidenceSig[r.sha] == r.signature
  {
  }

  /**
   Wherever a publication run is cut off: once its catalog is in the archive, all its
   evidence is there too.
   */
  lemma EvidenceComesFirst(s: State, plan: Plan, now: nat, inputs: Inputs, kept: nat, k: nat)
    requires
      var ws := Cut(PublishScript(s, plan, now, inputs), kept);
      k < |ws| && !IsEvidence(ws[k])
    ensures
      var t := ApplyAll(s, Cut(PublishScript(s, plan, now, inputs), kept));
      forall i :: 0 <= i < |plan.reports| ==>
        var r := plan.reports[i];
        r.sha in t.evidence && t.evidence[r.sha] == r.sha && r.sha in t.evidenceSig && t.evidenceSig[r.sha] == r.signature
  {
    hide Admit, EvidencePart, ArchivePart, AnnouncePart, SwitchPart, ApplyAll, HoldsReport, KeepsEvidence;
    var pair := Admit(s, plan, now, inputs).value;
    var e := EvidencePart(s, plan.reports);
    var rest := Then(ArchivePart(s, Document(plan.catalog)), Then(AnnouncePart(s, plan, pair, now), Part(SwitchPart(s, plan, now), true)));
    EvidencePartIsEvidence(s, plan.reports);
    AfterEvidence(s, plan, pair, now);
    EvidenceDone(s, plan.reports);
    ThenWrites(e, rest);
    var script := PublishScript(s, plan, now, inputs);
    var ws := Cut(script, kept);
    assert ws[k] == script[k];
    assert e.ok && k >= |e.writes|;
    var more := ws[|e.writes|..];
    assert ws == e.writes + more;
    assert forall j :: 0 <= j < |more| ==> more[j] == rest.writes[j];
    ApplyAppend(s, e.writes, more);
    EvidenceStays(ApplyAll(s, e.writes), more);
    forall i | 0 <= i < |plan.reports|
      ensures
        var t, r := ApplyAll(s, ws), plan.reports[i];
        r.sha in t.evidence && t.evidence[r.sha] == r.sha && r.sha in t.evidenceSig && t.evidenceSig[r.sha] == r.signature
    {
      ReportStays(ApplyAll(s, e.writes), ApplyAll(s, ws), plan.reports[i]);
      HeldIs(ApplyAll(s, ws), plan.reports[i]);
    }
  }
}

/**
 Safety of every history of publications and trials: one invariant of the durable state,
 kept by every single write of every run.
 */
module PublicationSafety {
  import opened StoreBytes
  import opened CatalogModel
  import opened CatalogBuild
  import opened PublicationProtocol

  // ------------------------------------------------------------------ invariant

  function DataRevision(s: State): nat {
    if s.data.Some? && s.data.value.Document? then s.data.value.catalog.revision else 0
  }

  function ReservedRevision(s: State): nat {
    if s.reservation.Some? then s.reservation.value.revision else 0
  }

  /** No revision used so far is larger. */
  function Used(s: State): nat {
    Max(DataRevision(s), ReservedRevision(s))
  }

  predicate PairAuthentic(data: Option<Bytes>, signature: Option<Signature>) {
    (data.None? && signature.None?) ||
    (data.Some? && data.value.Document? && signature == Some(SignatureOf(data.value)) && Authentic(data.value.catalog))
  }

  /** Without a pending publication the public pair is whole and the floor describes it. */
  predicate Settled(s: State, f: Floor) {
    PairAuthentic(s.data, s.signature) && (f.revision > 0 ==> s.data == f.sha)
  }

  predicate HoldsReport(s: State, r: Report) {
    Lookup(s.evidence, r.sha) == Some(r.sha) && Lookup(s.evidenceSig, r.sha) == Some(r.signature)
  }

  /** Evidence and catalog are in the write-once archive. */
  predicate Archived(s: State, plan: Plan) {
    && Lookup(s.archive, plan.catalog.revision) == Some(Document(plan.catalog))
    && Lookup(s.archiveSig, plan.catalog.revision) == Some(SignatureOf(Document(plan.catalog)))
    && forall k :: 0 <= k < |plan.reports| ==> HoldsReport(s, plan.reports[k])
  }

  /** With a pending publication each half is the old or the new one, and all that is needed to resume is staged. */
  predicate InFlight(s: State, f: Floor, p: Pending) {
    var r, data := p.revision, p.sha;
    && p.plan.catalog.revision == r && data == Document(p.plan.catalog) && Authentic(p.plan.catalog)
    && p.plan.baseRevision == f.revision && p.plan.baseSha == f.sha
    && PairAuthentic(p.plan.baseSha, p.plan.baseSignature)
    && Archived(s, p.plan)
    && Lookup(s.staged, r) == Some(data) && Lookup(s.stagedSig, r) == Some(SignatureOf(data))
    && (f.revision > 0 ==>
          && Lookup(s.stagedBase, r) == p.plan.baseSha && Lookup(s.stagedBaseSig, r) == p.plan.baseSignature
          && p.plan.baseSha.Some? && p.plan.baseSha.value.catalog.issued <= f.time)
    && OldOrNew(s.data, p.plan.baseSha, data)
    && OldOrNew(s.signature, p.plan.baseSignature, SignatureOf(data))
    && (s.signature == Some(SignatureOf(data)) ==> s.data == Some(data))
    && r == Max(f.revision, ReservedRevision(s)) + 1
  }

  predicate FloorDescribes(f: Floor) {
    f.revision > 0 ==> f.sha.Some? && f.sha.value.Document? && f.sha.value.catalog.revision == f.revision
  }

  predicate Inv(s: State) {
    var f := FloorOf(s);
    && LoaderAccepts(f) && FloorDescribes(f)
    && Reserved(s) == Some(ReservedRevision(s))
    && (match f.pending case None => Settled(s, f) case Some(p) => InFlight(s, f, p))
    && (s.reservation.Some? && DataRevision(s) > 0 ==> DataRevision(s) != ReservedRevision(s))
  }

  // ------------------------------------------------------------------ one write

  /** The floor never moves back. */
  predicate Forward(s: State, t: State) {
    FloorOf(s).revision <= FloorOf(t).revision && FloorOf(s).time <= FloorOf(t).time && Used(s) <= Used(t)
  }

  /** A revision is bound at the public pair or in the reservation only when it is larger than all used ones. */
  predicate BindsOnlyNew(s: State, t: State) {
    && (t.data == s.data || DataRevision(t) > Used(s))
    && (t.reservation == s.reservation || ReservedRevision(t) > Used(s))
  }

  predicate GoodStep(s: State, t: State) {
    Inv(t) && Forward(s, t) && BindsOnlyNew(s, t)
  }

  predicate Safe(s: State, ws: seq<Write>)
    decreases |ws|
  {
    ws == [] || (GoodStep(s, Apply(s, ws[0])) && Safe(Apply(s, ws[0]), ws[1..]))
  }

  lemma {:induction false} SafeAppend(s: State, a: seq<Write>, b: seq<Write>)
    requires Safe(s, a) && Safe(ApplyAll(s, a), b)
    ensures Safe(s, a + b) && ApplyAll(s, a + b) == ApplyAll(ApplyAll(s, a), b)
    decreases |a|
  {
    hide GoodStep, Apply;
    if a == [] {
      assert a + b == b;
    } else {
      assert (a + b)[1..] == a[1..] + b;
      SafeAppend(Apply(s, a[0]), a[1..], b);
    }
  }

  lemma {:induction false} SafePrefix(s: State, ws: seq<Write>, kept: nat)
    requires Safe(s, ws) && kept <= |ws|
    ensures Safe(s, ws[..kept])
    decreases |ws|
  {
    hide GoodStep, Apply;
    if kept > 0 {
      assert ws[..kept][1..] == ws[1..][..kept - 1];
      SafePrefix(Apply(s, ws[0]), ws[1..], kept - 1);
    }
  }

  lemma {:induction false} SafeKeepsInv(s: State, ws: seq<Write>)
    requires Inv(s) && Safe(s, ws)
    ensures Inv(ApplyAll(s, ws)) && Forward(s, ApplyAll(s, ws))
    decreases |ws|
  {
    hide Inv, Apply;
    if ws != [] {
      SafeKeepsInv(Apply(s, ws[0]), ws[1..]);
    }
  }

  // ------------------------------------------------------------------ archives and staging

  /** The parts of the state the invariant speaks about when nothing is staged. */
  predicate SameCore(s: State, t: State) {
    t.floor == s.floor && t.data == s.data && t.signature == s.signature && t.reservation == s.reservation &&
    t.trialDirs == s.trialDirs && t.trialPlan == s.trialPlan && t.trialPlanSig == s.trialPlanSig &&
    t.trialCatalog == s.trialCatalog && t.trialCatalogSig == s.trialCatalogSig
  }

  predicate Archival(w: Write) {
    w.PutEvidence? || w.PutEvidenceSig? || w.PutArchive? || w.PutArchiveSig?
  }

  predicate Staging(w: Write) {
    w.Stage? || w.StageSig? || w.StageBase? || w.StageBaseSig?
  }

  lemma CoreKeepsInv(s: State, t: State)
    requires Inv(s) && SameCore(s, t) && FloorOf(s).pending.None?
    ensures GoodStep(s, t)
  {
    hide LoaderAccepts, Authentic;
    assert FloorOf(t) == FloorOf(s);
    assert Reserved(t) == Reserved(s);
  }

  lemma QuietApply(s: State, w: Write)
    requires Archival(w) || Staging(w)
    ensures SameCore(s, Apply(s, w))
  {
  }

  predicate AllQuiet(ws: seq<Write>) {
    forall k :: 0 <= k < |ws| ==> Archival(ws[k]) || Staging(ws[k])
  }

  /** Archive uploads and staged files while nothing is pending. */
  lemma {:induction false} QuietWritesSafe(s: State, ws: seq<Write>)
    requires Inv(s) && AllQuiet(ws) && FloorOf(s).pending.None?
    ensures Safe(s, ws) && SameCore(s, ApplyAll(s, ws)) && Inv(ApplyAll(s, ws))
    decreases |ws|
  {
    hide Inv, Apply, Archival, Staging, Forward, BindsOnlyNew;
    if ws != [] {
      var t := Apply(s, ws[0]);
      QuietApply(s, ws[0]);
      CoreKeepsInv(s, t);
      assert forall k :: 0 <= k < |ws[1..]| ==> ws[1..][k] == ws[k + 1];
      QuietWritesSafe(t, ws[1..]);
    }
  }

  lemma ThenQuiet(a: Part, b: Part)
    requires AllQuiet(a.writes) && AllQuiet(b.writes)
    ensures AllQuiet(Then(a, b).writes)
  {
    hide Archival, Staging;
  }

  lemma {:induction false} EvidenceQuiet(s: State, reports: seq<Report>)
    ensures AllQuiet(EvidencePart(s, reports).writes)
    decreases |reports|
  {
    hide ApplyAll;
    if reports != [] {
      var first := EvidenceOne(s, reports[0]);
      EvidenceQuiet(ApplyAll(s, first.writes), reports[1..]);
      ThenQuiet(first, EvidencePart(ApplyAll(s, first.writes), reports[1..]));
    }
  }

  /** What is archived stays archived. */
  predicate KeepsEvidence(s: State, t: State) {
    && (forall k :: k in s.evidence ==> k in t.evidence && t.evidence[k] == s.evidence[k])
    && (forall k :: k in s.evidenceSig ==> k in t.evidenceSig && t.evidenceSig[k] == s.evidenceSig[k])
  }

  lemma EvidenceOneDone(s: State, r: Report)
    ensures
      var t := ApplyAll(s, EvidenceOne(s, r).writes);
      KeepsEvidence(s, t) && (EvidenceOne(s, r).ok ==> HoldsReport(t, r))
  {
    hide ApplyAll;
    var a := Once(Lookup(s.evidence, r.sha), r.sha, PutEvidence(r.sha, r.sha));
    var b := Once(Lookup(s.evidenceSig, r.sha), r.signature, PutEvidenceSig(r.sha, r.signature));
    OnceApplied(s, Lookup(s.evidence, r.sha), r.sha, PutEvidence(r.sha, r.sha));
    var m := ApplyAll(s, a.writes);
    OnceApplied(m, Lookup(s.evidenceSig, r.sha), r.signature, PutEvidenceSig(r.sha, r.signature));
    ApplyAppend(s, a.writes, b.writes);
  }

  lemma OnceApplied<T>(s: State, present: Option<T>, value: T, w: Write)
    ensures ApplyAll(s, Once(present, value, w).writes) == if present.None? then Apply(s, w) else s
  {
    hide Apply;
    ApplyNone(s);
    ApplyOne(s, w);
  }

  lemma ApplyOne(s: State, w: Write)
    ensures ApplyAll(s, [w]) == Apply(s, w)
  {
    hide Apply;
    assert [w][1..] == [];
    assert ApplyAll(Apply(s, w), []) == Apply(s, w);
  }

  lemma ApplyNone(s: State)
    ensures ApplyAll(s, []) == s
  {
  }

  lemma {:induction false} EvidenceDone(s: State, reports: seq<Report>)
    ensures
      var part := EvidencePart(s, reports);
      var t := ApplyAll(s, part.writes);
      && KeepsEvidence(s, t)
      && (part.ok ==> forall k :: 0 <= k < |reports| ==> HoldsReport(t, reports[k]))
    decreases |reports|
  {
    hide Apply, EvidenceOne;
    if reports != [] {
      var first := EvidenceOne(s, reports[0]);
      var m := ApplyAll(s, first.writes);
      EvidenceOneDone(s, reports[0]);
      EvidenceDone(m, reports[1..]);
      var rest := EvidencePart(m, reports[1..]);
      ApplyAppend(s, first.writes, rest.writes);
      if first.ok && rest.ok {
        var t := ApplyAll(m, rest.writes);
        forall k | 0 <= k < |reports| ensures HoldsReport(t, reports[k]) {
          if k > 0 {
            assert reports[k] == reports[1..][k - 1];
          }
        }
      }
    }
  }

  /** Nothing is written again for evidence that is already there. */
  lemma {:induction false} EvidencePresent(s: State, reports: seq<Report>)
    requires forall k :: 0 <= k < |reports| ==> HoldsReport(s, reports[k])
    ensures EvidencePart(s, reports) == Part([], true)
    decreases |reports|
  {
    if reports != [] {
      assert HoldsReport(s, reports[0]);
      assert forall k :: 0 <= k < |reports[1..]| ==> reports[1..][k] == reports[k + 1];
      EvidencePresent(s, reports[1..]);
    }
  }

  // ------------------------------------------------------------------ what admission establishes

  function CatalogOf(data: Option<Bytes>): Option<Catalog> {
    if data.Some? && data.value.Document? then Some(data.value.catalog) else None
  }

  lemma AuthenticateFacts(data: Option<Bytes>, signature: Option<Signature>, now: nat)
    requires Authenticate(data, signature, now).Some?
    ensures PairAuthentic(data, signature) && Authenticate(data, signature, now).value == CatalogOf(data)
    ensures data.Some? ==> data.value.catalog.issued <= now && data.value.catalog.revision > 0
  {
    hide ReleaseOk, StableOk, TransitionOk, UniqueTransitions, UniqueVersions;
  }

  /** The revision, base and reports of an admitted plan are exactly what was rebuilt. */
  ghost predicate Rebuilt(plan: Plan, reserved: nat, now: nat, inputs: Inputs) {
    && BuildDocument(Paths(plan.reports), CatalogOf(plan.baseSha), reserved, plan.catalog.issued, now, inputs, plan.promote) ==
       Some((plan.reports, plan.catalog))
    && plan.baseRevision == BaseRevision(CatalogOf(plan.baseSha))
    && plan.checkpoint == inputs.checkpoint && plan.checkpoint.clean
  }

  lemma AdmitRebuilds(s: State, plan: Plan, now: nat, inputs: Inputs)
    requires Inv(s) && Admit(s, plan, now, inputs).Some?
    ensures
      var pair := Admit(s, plan, now, inputs).value;
      && Rebuilt(plan, ReservedRevision(s), now, inputs)
      && pair == Pair(plan.baseSha, plan.baseSignature)
      && PairAuthentic(pair.data, pair.signature)
      && now >= FloorOf(s).time && plan.catalog.issued <= now
      && (plan.baseRevision > 0 <==> plan.baseSha.Some?)
      && (plan.baseRevision > 0 ==> plan.baseSha.value.catalog.issued <= now)
      && (FloorOf(s).pending.None? ==>
            pair == Pair(s.data, s.signature) && plan.baseRevision == DataRevision(s) && plan.baseRevision >= FloorOf(s).revision)
      && (FloorOf(s).pending.Some? ==> FloorOf(s).pending.value.plan == plan)
  {
    hide BuildDocument, Authenticate, LoaderAccepts, Reserved, InFlight, Authentic, OldOrNew;
    var f := FloorOf(s);
    var (pair, base) := Ancestry(s, plan, now).value;
    AuthenticateFacts(pair.data, pair.signature, now);
    assert Inv(s);
  }

  lemma RebuiltFacts(plan: Plan, reserved: nat, now: nat, inputs: Inputs)
    requires Rebuilt(plan, reserved, now, inputs)
    ensures Valid(plan.catalog, now) && Authentic(plan.catalog) && 0 < now <= MAX_TIME
    ensures plan.catalog.revision == Max(plan.baseRevision, reserved) + 1 && plan.catalog.revision < U64_LIMIT
  {
    hide WellFormed, ReportsOk, Sort, AddTransitions, AddRelease, ReadReports;
    RevisionBound(plan.catalog);
  }

  lemma RevisionBound(c: Catalog)
    ensures WellFormed(c) ==> 0 < c.revision < U64_LIMIT && 0 < c.issued <= MAX_TIME
  {
  }

  // ------------------------------------------------------------------ announcing a publication

  lemma ArchiveDone(s: State, data: Bytes)
    requires data.Document?
    ensures AllQuiet(ArchivePart(s, data).writes)
    ensures
      var part := ArchivePart(s, data);
      var t := ApplyAll(s, part.writes);
      && t.evidence == s.evidence && t.evidenceSig == s.evidenceSig
      && (part.ok ==> Lookup(t.archive, data.catalog.revision) == Some(data) &&
                      Lookup(t.archiveSig, data.catalog.revision) == Some(SignatureOf(data)))
  {
    hide ApplyAll;
    var r := data.catalog.revision;
    var a := Once(Lookup(s.archive, r), data, PutArchive(r, data));
    var b := Once(Lookup(s.archiveSig, r), SignatureOf(data), PutArchiveSig(r, SignatureOf(data)));
    OnceApplied(s, Lookup(s.archive, r), data, PutArchive(r, data));
    OnceApplied(ApplyAll(s, a.writes), Lookup(s.archiveSig, r), SignatureOf(data), PutArchiveSig(r, SignatureOf(data)));
    ApplyAppend(s, a.writes, b.writes);
  }

  predicate SameArchive(s: State, t: State) {
    t.evidence == s.evidence && t.evidenceSig == s.evidenceSig && t.archive == s.archive && t.archiveSig == s.archiveSig
  }

  lemma StageNewDone(s: State, plan: Plan)
    ensures AllQuiet(StageNew(s, plan).writes)
    ensures
      var part := StageNew(s, plan);
      var t := ApplyAll(s, part.writes);
      var r, data := plan.catalog.revision, Document(plan.catalog);
      && SameArchive(s, t) && t.stagedBase == s.stagedBase && t.stagedBaseSig == s.stagedBaseSig
      && (part.ok ==> Lookup(t.staged, r) == Some(data) && Lookup(t.stagedSig, r) == Some(SignatureOf(data)))
  {
    hide ApplyAll;
    var r, data := plan.catalog.revision, Document(plan.catalog);
    var a := Once(Lookup(s.staged, r), data, Stage(r, data));
    var b := Once(Lookup(s.stagedSig, r), SignatureOf(data), StageSig(r, SignatureOf(data)));
    OnceApplied(s, Lookup(s.staged, r), data, Stage(r, data));
    OnceApplied(ApplyAll(s, a.writes), Lookup(s.stagedSig, r), SignatureOf(data), StageSig(r, SignatureOf(data)));
    ApplyAppend(s, a.writes, b.writes);
  }

  lemma StageBaseDataDone(s: State, m: State, r: nat, data: Option<Bytes>)
    requires m.stagedBase == s.stagedBase
    ensures AllQuiet(StageBaseData(s, r, data).writes)
    ensures
      var part := StageBaseData(s, r, data);
      var t := ApplyAll(m, part.writes);
      && t == m.(stagedBase := t.stagedBase)
      && (part.ok && data.Some? ==> Lookup(t.stagedBase, r) == data)
  {
    hide ApplyAll;
    ApplyNone(m);
    if data.Some? {
      OnceApplied(m, Lookup(s.stagedBase, r), data.value, StageBase(r, data.value));
    }
  }

  lemma StageBaseSignatureDone(s: State, m: State, r: nat, signature: Option<Signature>)
    requires m.stagedBaseSig == s.stagedBaseSig
    ensures AllQuiet(StageBaseSignature(s, r, signature).writes)
    ensures
      var part := StageBaseSignature(s, r, signature);
      var t := ApplyAll(m, part.writes);
      && t == m.(stagedBaseSig := t.stagedBaseSig)
      && (part.ok && signature.Some? ==> Lookup(t.stagedBaseSig, r) == signature)
  {
    hide ApplyAll;
    ApplyNone(m);
    if signature.Some? {
      OnceApplied(m, Lookup(s.stagedBaseSig, r), signature.value, StageBaseSig(r, signature.value));
    }
  }

  /** The base files, written over a state that agrees with the one that was read. */
  lemma StageOldDone(s: State, m: State, r: nat, pair: Pair)
    requires m.stagedBase == s.stagedBase && m.stagedBaseSig == s.stagedBaseSig
    ensures AllQuiet(StageOld(s, r, pair).writes)
    ensures
      var part := StageOld(s, r, pair);
      var t := ApplyAll(m, part.writes);
      && SameArchive(m, t) && t.staged == m.staged && t.stagedSig == m.stagedSig
      && (part.ok ==> (pair.data.Some? ==> Lookup(t.stagedBase, r) == pair.data) &&
                      (pair.signature.Some? ==> Lookup(t.stagedBaseSig, r) == pair.signature))
  {
    hide ApplyAll, StageBaseData, StageBaseSignature, AllQuiet;
    var a, b := StageBaseData(s, r, pair.data), StageBaseSignature(s, r, pair.signature);
    StageBaseDataDone(s, m, r, pair.data);
    StageBaseSignatureDone(s, ApplyAll(m, a.writes), r, pair.signature);
    ApplyAppend(m, a.writes, b.writes);
    ThenQuiet(a, b);
  }

  /** The four staged files, each written once. */
  lemma StageDone(s: State, plan: Plan, pair: Pair)
    ensures AllQuiet(StagePart(s, plan, pair).writes)
    ensures
      var part := StagePart(s, plan, pair);
      var t := ApplyAll(s, part.writes);
      var r, data := plan.catalog.revision, Document(plan.catalog);
      && SameArchive(s, t)
      && (part.ok ==>
            && Lookup(t.staged, r) == Some(data) && Lookup(t.stagedSig, r) == Some(SignatureOf(data))
            && (pair.data.Some? ==> Lookup(t.stagedBase, r) == pair.data)
            && (pair.signature.Some? ==> Lookup(t.stagedBaseSig, r) == pair.signature))
  {
    hide ApplyAll, StageNew, StageOld, AllQuiet;
    var a, b := StageNew(s, plan), StageOld(s, plan.catalog.revision, pair);
    StageNewDone(s, plan);
    StageOldDone(s, ApplyAll(s, a.writes), plan.catalog.revision, pair);
    ApplyAppend(s, a.writes, b.writes);
    ThenQuiet(a, b);
  }

  /** The floor that announces a publication keeps the invariant. */
  lemma AnnounceSafe(t: State, plan: Plan, now: nat, inputs: Inputs)
    requires Inv(t) && FloorOf(t).pending.None?
    requires Rebuilt(plan, ReservedRevision(t), now, inputs)
    requires Pair(t.data, t.signature) == Pair(plan.baseSha, plan.baseSignature) && PairAuthentic(t.data, t.signature)
    requires now >= FloorOf(t).time && plan.baseRevision >= FloorOf(t).revision && plan.baseRevision == DataRevision(t)
    requires plan.baseRevision > 0 <==> plan.baseSha.Some?
    requires plan.baseRevision > 0 ==> plan.baseSha.value.catalog.issued <= now
    requires Archived(t, plan)
    requires Lookup(t.staged, plan.catalog.revision) == Some(Document(plan.catalog))
    requires Lookup(t.stagedSig, plan.catalog.revision) == Some(SignatureOf(Document(plan.catalog)))
    requires plan.baseSha.Some? ==> Lookup(t.stagedBase, plan.catalog.revision) == plan.baseSha
    requires plan.baseSignature.Some? ==> Lookup(t.stagedBaseSig, plan.catalog.revision) == plan.baseSignature
    ensures GoodStep(t, Apply(t, SetFloor(PendingFloor(plan, now))))
    ensures FloorOf(Apply(t, SetFloor(PendingFloor(plan, now)))) ==
              Floor(plan.baseRevision, plan.baseSha, if plan.baseRevision == 0 then 0 else now,
                    Some(Pending(plan.catalog.revision, Document(plan.catalog), plan)))
  {
    hide Rebuilt, Archived, Authentic;
    RebuiltFacts(plan, ReservedRevision(t), now, inputs);
    var u := Apply(t, SetFloor(PendingFloor(plan, now)));
    assert Reserved(u) == Reserved(t);
    assert Archived(u, plan) by { ArchivedSame(t, u, plan); }
  }

  lemma ArchivedSame(s: State, t: State, plan: Plan)
    requires Archived(s, plan)
    requires t.evidence == s.evidence && t.evidenceSig == s.evidenceSig && t.archive == s.archive && t.archiveSig == s.archiveSig
    ensures Archived(t, plan)
  {
  }

  // ------------------------------------------------------------------ switching the public pair

  lemma PutDataSafe(s: State, plan: Plan)
    requires Inv(s) && FloorOf(s).pending.Some? && FloorOf(s).pending.value.plan == plan
    requires s.data != Some(Document(plan.catalog))
    ensures GoodStep(s, Apply(s, PutData(Document(plan.catalog))))
  {
    hide Authentic;
    var t := Apply(s, PutData(Document(plan.catalog)));
    assert Reserved(t) == Reserved(s);
    assert Archived(t, plan) by { ArchivedSame(s, t, plan); }
  }

  lemma PutSignatureSafe(s: State, plan: Plan)
    requires Inv(s) && FloorOf(s).pending.Some? && FloorOf(s).pending.value.plan == plan
    requires s.data == Some(Document(plan.catalog))
    ensures GoodStep(s, Apply(s, PutSignature(SignatureOf(Document(plan.catalog)))))
  {
    hide Authentic;
    var t := Apply(s, PutSignature(SignatureOf(Document(plan.catalog))));
    assert Reserved(t) == Reserved(s);
    assert Archived(t, plan) by { ArchivedSame(s, t, plan); }
  }

  lemma FinishSafe(s: State, plan: Plan, now: nat)
    requires Inv(s) && FloorOf(s).pending.Some? && FloorOf(s).pending.value.plan == plan
    requires s.data == Some(Document(plan.catalog)) && s.signature == Some(SignatureOf(Document(plan.catalog)))
    requires Valid(plan.catalog, now) && now >= FloorOf(s).time
    ensures GoodStep(s, Apply(s, SetFloor(FinalFloor(plan, now))))
  {
    hide Authentic, WellFormed;
    RevisionBound(plan.catalog);
    var t := Apply(s, SetFloor(FinalFloor(plan, now)));
    assert Reserved(t) == Reserved(s);
  }

  lemma SwitchSafe(s: State, plan: Plan, now: nat)
    requires Inv(s) && FloorOf(s).pending.Some? && FloorOf(s).pending.value.plan == plan
    requires Valid(plan.catalog, now) && now >= FloorOf(s).time
    ensures Safe(s, SwitchPart(s, plan, now))
    ensures
      var t := ApplyAll(s, SwitchPart(s, plan, now));
      && t.data == Some(Document(plan.catalog)) && t.signature == Some(SignatureOf(Document(plan.catalog)))
      && FloorOf(t) == FinalFloor(plan, now)
  {
    hide Inv, Valid, Forward, BindsOnlyNew;
    var data := Document(plan.catalog);
    var a := if s.data == Some(data) then [] else [PutData(data)];
    var b := if s.signature == Some(SignatureOf(data)) then [] else [PutSignature(SignatureOf(data))];
    var c := [SetFloor(FinalFloor(plan, now))];
    SafeNone(s);
    if a != [] {
      PutDataSafe(s, plan);
      SafeSingle(s, PutData(data));
    }
    var s1 := ApplyAll(s, a);
    assert Inv(s1) && FloorOf(s1) == FloorOf(s) && s1.data == Some(data) && s1.signature == s.signature;
    SafeNone(s1);
    if b != [] {
      PutSignatureSafe(s1, plan);
      SafeSingle(s1, PutSignature(SignatureOf(data)));
    }
    var s2 := ApplyAll(s1, b);
    assert Inv(s2) && FloorOf(s2) == FloorOf(s) && s2.data == Some(data) && s2.signature == Some(SignatureOf(data));
    FinishSafe(s2, plan, now);
    SafeSingle(s2, SetFloor(FinalFloor(plan, now)));
    SafeAppend(s, a, b);
    SafeAppend(s, a + b, c);
  }

  lemma SafeSingle(s: State, w: Write)
    requires GoodStep(s, Apply(s, w))
    ensures Safe(s, [w]) && ApplyAll(s, [w]) == Apply(s, w)
  {
    hide GoodStep, Apply;
    ApplyOne(s, w);
    assert [w][1..] == [];
    assert Safe(Apply(s, w), []);
  }

  lemma SafeNone(s: State)
    ensures Safe(s, []) && ApplyAll(s, []) == s
  {
  }

  // ------------------------------------------------------------------ a whole publication run

  predicate SameCatalogFiles(s: State, t: State) {
    && t.archive == s.archive && t.archiveSig == s.archiveSig && SameStaged(s, t)
  }

  predicate SameStaged(s: State, t: State) {
    && t.staged == s.staged && t.stagedSig == s.stagedSig
    && t.stagedBase == s.stagedBase && t.stagedBaseSig == s.stagedBaseSig
  }

  /** Uploading evidence leaves catalogs alone. */
  lemma {:induction false} EvidenceApart(s: State, reports: seq<Report>)
    ensures SameCatalogFiles(s, ApplyAll(s, EvidencePart(s, reports).writes))
    decreases |reports|
  {
    hide ApplyAll, EvidenceOne;
    ApplyNone(s);
    if reports != [] {
      var first := EvidenceOne(s, reports[0]);
      var m := ApplyAll(s, first.writes);
      var rest := EvidencePart(m, reports[1..]);
      EvidenceOneApart(s, reports[0]);
      EvidenceApart(m, reports[1..]);
      ApplyAppend(s, first.writes, rest.writes);
    }
  }

  lemma EvidenceOneApart(s: State, r: Report)
    ensures SameCatalogFiles(s, ApplyAll(s, EvidenceOne(s, r).writes))
  {
    hide ApplyAll;
    var a := Once(Lookup(s.evidence, r.sha), r.sha, PutEvidence(r.sha, r.sha));
    var b := Once(Lookup(s.evidenceSig, r.sha), r.signature, PutEvidenceSig(r.sha, r.signature));
    OnceApplied(s, Lookup(s.evidence, r.sha), r.sha, PutEvidence(r.sha, r.sha));
    OnceApplied(ApplyAll(s, a.writes), Lookup(s.evidenceSig, r.sha), r.signature, PutEvidenceSig(r.sha, r.signature));
    ApplyAppend(s, a.writes, b.writes);
  }

  /** Archiving a catalog leaves the staged files alone. */
  lemma ArchiveApart(s: State, data: Bytes)
    requires data.Document?
    ensures SameStaged(s, ApplyAll(s, ArchivePart(s, data).writes))
  {
    hide ApplyAll;
    var r := data.catalog.revision;
    var a := Once(Lookup(s.archive, r), data, PutArchive(r, data));
    var b := Once(Lookup(s.archiveSig, r), SignatureOf(data), PutArchiveSig(r, SignatureOf(data)));
    OnceApplied(s, Lookup(s.archive, r), data, PutArchive(r, data));
    OnceApplied(ApplyAll(s, a.writes), Lookup(s.archiveSig, r), SignatureOf(data), PutArchiveSig(r, SignatureOf(data)));
    ApplyAppend(s, a.writes, b.writes);
  }

  lemma ArchiveOver(s: State, t: State, data: Bytes)
    requires data.Document? && SameCatalogFiles(s, t)
    ensures ArchivePart(t, data) == ArchivePart(s, data)
  {
  }

  lemma StageOver(s: State, t: State, plan: Plan, pair: Pair)
    requires SameStaged(s, t)
    ensures StagePart(t, plan, pair) == StagePart(s, plan, pair)
  {
  }

  /** Evidence, archive and staging: quiet writes after which, if all went well, everything is in place. */
  ghost predicate Prepared(t: State, plan: Plan, pair: Pair) {
    var r, data := plan.catalog.revision, Document(plan.catalog);
    && Archived(t, plan)
    && Lookup(t.staged, r) == Some(data) && Lookup(t.stagedSig, r) == Some(SignatureOf(data))
    && (pair.data.Some? ==> Lookup(t.stagedBase, r) == pair.data)
    && (pair.signature.Some? ==> Lookup(t.stagedBaseSig, r) == pair.signature)
  }

  function Uploads(s: State, plan: Plan): Part {
    Then(EvidencePart(s, plan.reports), ArchivePart(s, Document(plan.catalog)))
  }

  function Preparation(s: State, plan: Plan, pair: Pair): Part {
    Then(Uploads(s, plan), StagePart(s, plan, pair))
  }

  lemma UploadsDone(s: State, plan: Plan)
    ensures AllQuiet(Uploads(s, plan).writes)
    ensures SameStaged(s, ApplyAll(s, Uploads(s, plan).writes))
    ensures Uploads(s, plan).ok ==> Archived(ApplyAll(s, Uploads(s, plan).writes), plan)
  {
    hide ApplyAll, EvidencePart, ArchivePart, AllQuiet, HoldsReport, KeepsEvidence;
    var data := Document(plan.catalog);
    var e, a := EvidencePart(s, plan.reports), ArchivePart(s, data);
    var s1 := ApplyAll(s, e.writes);
    EvidenceQuiet(s, plan.reports);
    EvidenceDone(s, plan.reports);
    EvidenceApart(s, plan.reports);
    ArchiveOver(s, s1, data);
    ArchiveDone(s1, data);
    ArchiveApart(s1, data);
    ThenQuiet(e, a);
    ApplyAppend(s, e.writes, a.writes);
    var s2 := ApplyAll(s1, a.writes);
    if e.ok && a.ok {
      forall k | 0 <= k < |plan.reports| ensures HoldsReport(s2, plan.reports[k]) {
        assert HoldsReport(s1, plan.reports[k]);
        ReportStays(s1, s2, plan.reports[k]);
      }
    }
  }

  lemma ReportStays(s: State, t: State, r: Report)
    requires HoldsReport(s, r) && t.evidence == s.evidence && t.evidenceSig == s.evidenceSig
    ensures HoldsReport(t, r)
  {
  }

  lemma PreparationDone(s: State, plan: Plan, pair: Pair)
    ensures AllQuiet(Preparation(s, plan, pair).writes)
    ensures Preparation(s, plan, pair).ok ==> Prepared(ApplyAll(s, Preparation(s, plan, pair).writes), plan, pair)
  {
    hide ApplyAll, Uploads, StagePart, AllQuiet, Archived;
    var u, g := Uploads(s, plan), StagePart(s, plan, pair);
    var s1 := ApplyAll(s, u.writes);
    UploadsDone(s, plan);
    StageOver(s, s1, plan, pair);
    StageDone(s1, plan, pair);
    ThenQuiet(u, g);
    ApplyAppend(s, u.writes, g.writes);
    if u.ok && g.ok {
      ArchivedSame(s1, ApplyAll(s1, g.writes), plan);
    }
  }

  lemma ThenAssociates(a: Part, b: Part, c: Part)
    ensures Then(a, Then(b, c)) == Then(Then(a, b), c)
  {
    assert a.writes + (b.writes + c.writes) == a.writes + b.writes + c.writes;
  }

  /** The script of a new publication: preparation, announcement, switch. */
  lemma FreshScript(s: State, plan: Plan, now: nat, inputs: Inputs)
    requires FloorOf(s).pending.None? && Admit(s, plan, now, inputs).Some?
    ensures
      var p := Preparation(s, plan, Admit(s, plan, now, inputs).value);
      PublishScript(s, plan, now, inputs) ==
        if p.ok then p.writes + [SetFloor(PendingFloor(plan, now))] + SwitchPart(s, plan, now) else p.writes
    ensures PublishPart(s, plan, now, inputs).ok == Preparation(s, plan, Admit(s, plan, now, inputs).value).ok
  {
    hide Admit, EvidencePart, ArchivePart, StagePart, SwitchPart, Then;
    var pair := Admit(s, plan, now, inputs).value;
    var e, a, g := EvidencePart(s, plan.reports), ArchivePart(s, Document(plan.catalog)), StagePart(s, plan, pair);
    var n, w := Part([SetFloor(PendingFloor(plan, now))], true), Part(SwitchPart(s, plan, now), true);
    ThenAssociates(e, a, Then(Then(g, n), w));
    ThenAssociates(Then(e, a), Then(g, n), w);
    ThenAssociates(Then(e, a), g, n);
    ThenWrites(Then(Then(e, a), g), n);
    ThenWrites(Then(Then(Then(e, a), g), n), w);
  }

  lemma ThenWrites(a: Part, b: Part)
    ensures Then(a, b).writes == (if a.ok then a.writes + b.writes else a.writes) && Then(a, b).ok == (a.ok && b.ok)
  {
  }

  /** A run that announces a new publication. */
  lemma FreshRunSafe(s: State, plan: Plan, now: nat, inputs: Inputs)
    requires Inv(s) && FloorOf(s).pending.None? && Admit(s, plan, now, inputs).Some?
    ensures Safe(s, PublishScript(s, plan, now, inputs))
    ensures Preparation(s, plan, Admit(s, plan, now, inputs).value).ok ==>
              Published(ApplyAll(s, PublishScript(s, plan, now, inputs)), plan, now)
  {
    hide Inv, Admit, PublishScript, Preparation, SwitchPart, Rebuilt, AllQuiet, Archived, ApplyAll, Safe, PairAuthentic,
      DataRevision, ReservedRevision;
    var pair := Admit(s, plan, now, inputs).value;
    var p, w := Preparation(s, plan, pair), SwitchPart(s, plan, now);
    var announce := SetFloor(PendingFloor(plan, now));
    FreshScript(s, plan, now, inputs);
    AdmitRebuilds(s, plan, now, inputs);
    RebuiltFacts(plan, ReservedRevision(s), now, inputs);
    PreparationDone(s, plan, pair);
    QuietWritesSafe(s, p.writes);
    if p.ok {
      var t := ApplyAll(s, p.writes);
      CoreRevisions(s, t);
      AnnounceSafe(t, plan, now, inputs);
      SafeSingle(t, announce);
      SafeAppend(s, p.writes, [announce]);
      var u := Apply(t, announce);
      assert FloorOf(u) == PendingFloor(plan, now);
      SwitchOver(s, u, plan, now);
      SwitchSafe(u, plan, now);
      SafeAppend(s, p.writes + [announce], w);
    }
  }

  predicate Published(s: State, plan: Plan, now: nat) {
    && s.data == Some(Document(plan.catalog)) && s.signature == Some(SignatureOf(Document(plan.catalog)))
    && FloorOf(s) == Floor(plan.catalog.revision, Some(Document(plan.catalog)), now, None)
  }

  lemma CoreRevisions(s: State, t: State)
    requires SameCore(s, t)
    ensures DataRevision(t) == DataRevision(s) && ReservedRevision(t) == ReservedRevision(s) && FloorOf(t) == FloorOf(s)
  {
  }

  lemma SwitchOver(s: State, t: State, plan: Plan, now: nat)
    requires t.data == s.data && t.signature == s.signature
    ensures SwitchPart(t, plan, now) == SwitchPart(s, plan, now)
  {
  }

  /** A run that resumes the pending publication: only the switch is left. */
  lemma ResumedScript(s: State, plan: Plan, now: nat, inputs: Inputs)
    requires Inv(s) && FloorOf(s).pending.Some? && Admit(s, plan, now, inputs).Some?
    ensures FloorOf(s).pending.value.plan == plan
    ensures PublishScript(s, plan, now, inputs) == SwitchPart(s, plan, now)
  {
    hide Admit, EvidencePart, SwitchPart, HoldsReport, LoaderAccepts, FloorDescribes, Reserved, PairAuthentic, Authentic, Rebuilt,
      OldOrNew;
    AdmitRebuilds(s, plan, now, inputs);
    EvidencePresent(s, plan.reports);
  }

  lemma ResumedRunSafe(s: State, plan: Plan, now: nat, inputs: Inputs)
    requires Inv(s) && FloorOf(s).pending.Some? && Admit(s, plan, now, inputs).Some?
    ensures Safe(s, PublishScript(s, plan, now, inputs))
    ensures Published(ApplyAll(s, PublishScript(s, plan, now, inputs)), plan, now)
  {
    hide Inv, Admit, PublishScript, SwitchPart, Rebuilt, ApplyAll, Safe, PairAuthentic;
    ResumedScript(s, plan, now, inputs);
    AdmitRebuilds(s, plan, now, inputs);
    RebuiltFacts(plan, ReservedRevision(s), now, inputs);
    SwitchSafe(s, plan, now);
  }

  lemma PublishSafe(s: State, plan: Plan, now: nat, inputs: Inputs)
    requires Inv(s)
    ensures Safe(s, PublishScript(s, plan, now, inputs))
  {
    hide Inv, Admit, Safe, Preparation;
    if Admit(s, plan, now, inputs).None? {
      SafeNone(s);
    } else if FloorOf(s).pending.Some? {
      ResumedRunSafe(s, plan, now, inputs);
    } else {
      FreshRunSafe(s, plan, now, inputs);
    }
  }
}

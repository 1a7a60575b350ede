/**
 The publisher and the trial runner as they work: one durable write after the other, reading
 the current state before each, and possibly dying after any of them.  Re-reads that only
 guard against another writer are not repeated here.
 */
module CatalogPublisher {
  import opened StoreBytes
  import opened Interruption
  import opened CatalogModel
  import opened CatalogBuild
  import opened PublicationProtocol
  import opened PublicationSafety
  import opened PublicationHistory

  datatype Outcome = Done | Refused | Died

  /** `t` is what a part run from `s` leaves behind. */
  ghost predicate Ran(s: State, part: Part, o: Outcome, t: State) {
    if o.Died? then exists kept: nat :: t == ApplyAll(s, Cut(part.writes, kept))
    else t == ApplyAll(s, part.writes) && (o.Done? <==> part.ok)
  }

  lemma RanNothing(s: State, ok: bool)
    ensures Ran(s, Part([], ok), if ok then Done else Refused, s)
  {
  }

  lemma RanThen(s: State, a: Part, o: Outcome, m: State, b: Part, p: Outcome, t: State)
    requires Ran(s, a, o, m)
    requires if o.Done? then Ran(m, b, p, t) else p == o && t == m
    ensures Ran(s, Then(a, b), p, t)
  {
    if o.Died? {
      var kept: nat :| m == ApplyAll(s, Cut(a.writes, kept));
      var short := if kept <= |a.writes| then kept else |a.writes|;
      assert Cut(a.writes, kept) == Cut(Then(a, b).writes, short);
    } else if o.Done? {
      ApplyAppend(s, a.writes, b.writes);
      if p.Died? {
        var kept: nat :| t == ApplyAll(m, Cut(b.writes, kept));
        var short := if kept <= |b.writes| then kept else |b.writes|;
        ApplyAppend(s, a.writes, Cut(b.writes, short));
        assert Cut(b.writes, kept) == Cut(b.writes, short);
        assert Cut(Then(a, b).writes, |a.writes| + short) == a.writes + Cut(b.writes, short);
      }
    }
  }

  class Publisher {
    /** The registry and the protected state directory. */
    var state: State

    constructor (initial: State)
      ensures state == initial
    {
      state := initial;
    }

    /** One durable write, after which the process may be gone. */
    method Put(w: Write) returns (o: Outcome)
      modifies this
      ensures Ran(old(state), Part([w], true), o, state) && !o.Refused?
    {
      hide Apply;
      ghost var s := state;
      ApplyOne(s, w);
      ApplyNone(s);
      assert Cut([w], 1) == [w];
      state := Apply(state, w);
      if * {
        return Died;
      }
      return Done;
    }

    /** _immutable: written when absent, accepted when equal, refused otherwise. */
    method Immutable<T(==)>(present: Option<T>, value: T, w: Write) returns (o: Outcome)
      modifies this
      ensures Ran(old(state), Once(present, value, w), o, state)
    {
      hide Ran;
      if present.None? {
        o := Put(w);
      } else {
        RanNothing(state, present.value == value);
        o := if present.value == value then Done else Refused;
      }
    }

    method UploadReport(r: Report) returns (o: Outcome)
      modifies this
      ensures Ran(old(state), EvidenceOne(old(state), r), o, state)
    {
      hide Ran, ApplyAll;
      ghost var s := state;
      ghost var a := Once(Lookup(s.evidence, r.sha), r.sha, PutEvidence(r.sha, r.sha));
      ghost var b := Once(Lookup(s.evidenceSig, r.sha), r.signature, PutEvidenceSig(r.sha, r.signature));
      o := Immutable(Lookup(state.evidence, r.sha), r.sha, PutEvidence(r.sha, r.sha));
      ghost var first, m := o, state;
      if o.Done? {
        DoneState(s, a, state);
        OnceApplied(s, Lookup(s.evidence, r.sha), r.sha, PutEvidence(r.sha, r.sha));
        o := Immutable(Lookup(state.evidenceSig, r.sha), r.signature, PutEvidenceSig(r.sha, r.signature));
      }
      RanThen(s, a, first, m, b, o, state);
    }

    method UploadEvidence(reports: seq<Report>) returns (o: Outcome)
      modifies this
      ensures Ran(old(state), EvidencePart(old(state), reports), o, state)
    {
      hide Ran, ApplyAll, EvidenceOne, Then;
      ghost var s := state;
      ghost var ran := Part([], true);
      var n := 0;
      o := Done;
      RanNothing(s, true);
      ThenNothing(EvidencePart(s, reports));
      while n < |reports| && o.Done?
        invariant n <= |reports|
        invariant o.Done? ==> Ran(s, ran, Done, state) && Then(ran, EvidencePart(state, reports[n..])) == EvidencePart(s, reports)
        invariant !o.Done? ==> Ran(s, EvidencePart(s, reports), o, state)
      {
        ghost var m := state;
        ghost var one := EvidenceOne(m, reports[n]);
        ghost var rest := EvidencePart(ApplyAll(m, one.writes), reports[n + 1..]);
        o := UploadReport(reports[n]);
        RanThen(s, ran, Done, m, one, o, state);
        EvidenceStep(m, reports[n..]);
        assert reports[n..][1..] == reports[n + 1..];
        ThenAssociates(ran, one, rest);
        ran := Then(ran, one);
        if o.Done? {
          DoneState(m, one, state);
        } else {
          RanThen(s, ran, o, state, rest, o, state);
        }
        n := n + 1;
      }
      if o.Done? {
        ThenNothing(ran);
      }
    }

    method ArchiveCatalog(catalog: Catalog) returns (o: Outcome)
      modifies this
      ensures Ran(old(state), ArchivePart(old(state), Document(catalog)), o, state)
    {
      hide Ran, ApplyAll;
      ghost var s := state;
      var r, data := catalog.revision, Document(catalog);
      ghost var a := Once(Lookup(s.archive, r), data, PutArchive(r, data));
      ghost var b := Once(Lookup(s.archiveSig, r), SignatureOf(data), PutArchiveSig(r, SignatureOf(data)));
      o := Immutable(Lookup(state.archive, r), data, PutArchive(r, data));
      ghost var first, m := o, state;
      if o.Done? {
        DoneState(s, a, state);
        OnceApplied(s, Lookup(s.archive, r), data, PutArchive(r, data));
        o := Immutable(Lookup(state.archiveSig, r), SignatureOf(data), PutArchiveSig(r, SignatureOf(data)));
      }
      RanThen(s, a, first, m, b, o, state);
    }

    method StageNewPair(plan: Plan) returns (o: Outcome)
      modifies this
      ensures Ran(old(state), StageNew(old(state), plan), o, state)
    {
      hide Ran, ApplyAll;
      ghost var s := state;
      var r, data := plan.catalog.revision, Document(plan.catalog);
      ghost var a := Once(Lookup(s.staged, r), data, Stage(r, data));
      ghost var b := Once(Lookup(s.stagedSig, r), SignatureOf(data), StageSig(r, SignatureOf(data)));
      o := Immutable(Lookup(state.staged, r), data, Stage(r, data));
      ghost var first, m := o, state;
      if o.Done? {
        DoneState(s, a, state);
        OnceApplied(s, Lookup(s.staged, r), data, Stage(r, data));
        o := Immutable(Lookup(state.stagedSig, r), SignatureOf(data), StageSig(r, SignatureOf(data)));
      }
      RanThen(s, a, first, m, b, o, state);
    }

    method StageBaseFile(r: nat, data: Option<Bytes>) returns (o: Outcome)
      modifies this
      ensures Ran(old(state), StageBaseData(old(state), r, data), o, state)
    {
      hide Ran;
      RanNothing(state, true);
      o := Done;
      if data.Some? {
        o := Immutable(Lookup(state.stagedBase, r), data.value, StageBase(r, data.value));
      }
    }

    method StageBaseSignatureFile(r: nat, signature: Option<Signature>) returns (o: Outcome)
      modifies this
      ensures Ran(old(state), StageBaseSignature(old(state), r, signature), o, state)
    {
      hide Ran;
      RanNothing(state, true);
      o := Done;
      if signature.Some? {
        o := Immutable(Lookup(state.stagedBaseSig, r), signature.value, StageBaseSig(r, signature.value));
      }
    }

    method StageBasePair(r: nat, pair: Pair) returns (o: Outcome)
      modifies this
      ensures Ran(old(state), StageOld(old(state), r, pair), o, state)
    {
      hide Ran, ApplyAll, StageBaseData;
      ghost var s := state;
      ghost var a := StageBaseData(s, r, pair.data);
      o := StageBaseFile(r, pair.data);
      ghost var first, m := o, state;
      if o.Done? {
        DoneState(s, a, state);
        StageBaseDataDone(s, s, r, pair.data);
        o := StageBaseSignatureFile(r, pair.signature);
      }
      RanThen(s, a, first, m, StageBaseSignature(s, r, pair.signature), o, state);
    }

    method StageFiles(plan: Plan, pair: Pair) returns (o: Outcome)
      modifies this
      ensures Ran(old(state), StagePart(old(state), plan, pair), o, state)
    {
      hide Ran, ApplyAll, StageNew;
      ghost var s := state;
      ghost var a := StageNew(s, plan);
      o := StageNewPair(plan);
      ghost var first, m := o, state;
      if o.Done? {
        DoneState(s, a, state);
        StageNewDone(s, plan);
        o := StageBasePair(plan.catalog.revision, pair);
      }
      RanThen(s, a, first, m, StageOld(s, plan.catalog.revision, pair), o, state);
    }

    /** A new publication is staged and announced in the floor; a pending one must still be staged unchanged. */
    method Announce(plan: Plan, pair: Pair, now: nat) returns (o: Outcome)
      modifies this
      ensures Ran(old(state), AnnouncePart(old(state), plan, pair, now), o, state)
    {
      hide Ran, StagePart, PendingFloor;
      ghost var s := state;
      if FloorOf(state).pending.Some? {
        var r, data := plan.catalog.revision, Document(plan.catalog);
        var same := Lookup(state.staged, r) == Some(data) && Lookup(state.stagedSig, r) == Some(SignatureOf(data));
        RanNothing(s, same);
        return if same then Done else Refused;
      }
      o := StageFiles(plan, pair);
      ghost var first, m := o, state;
      var announcement := SetFloor(PendingFloor(plan, now));
      if o.Done? {
        o := Put(announcement);
      }
      RanThen(s, StagePart(s, plan, pair), first, m, Part([announcement], true), o, state);
    }

    /** Both public halves, the catalog first, and then the floor. */
    method Switch(plan: Plan, now: nat) returns (o: Outcome)
      modifies this
      ensures Ran(old(state), Part(SwitchPart(old(state), plan, now), true), o, state)
    {
      hide Ran, ApplyAll, FinalFloor;
      ghost var s := state;
      var data := Document(plan.catalog);
      ghost var a := Part(if s.data == Some(data) then [] else [PutData(data)], true);
      ghost var b := Part(if s.signature == Some(SignatureOf(data)) then [] else [PutSignature(SignatureOf(data))], true);
      ghost var c := Part([SetFloor(FinalFloor(plan, now))], true);
      RanNothing(s, true);
      o := Done;
      if state.data != Some(data) {
        o := Put(PutData(data));
      }
      ghost var first, m := o, state;
      if o.Done? {
        DoneState(s, a, m);
        ApplyNone(s);
        ApplyOne(s, PutData(data));
        RanNothing(m, true);
        if state.signature != Some(SignatureOf(data)) {
          o := Put(PutSignature(SignatureOf(data)));
        }
      }
      ghost var second, n := o, state;
      RanThen(s, a, first, m, b, second, n);
      if o.Done? {
        o := Put(SetFloor(FinalFloor(plan, now)));
      }
      RanThen(s, Then(a, b), second, n, c, o, state);
      assert Then(Then(a, b), c) == Part(SwitchPart(s, plan, now), true);
    }

    /** The pair and the base to work from. */
    method Reread(plan: Plan, now: nat) returns (r: Option<(Pair, Option<Catalog>)>)
      ensures r == Ancestry(state, plan, now)
    {
      hide Authenticate, BaseOf;
      var pending := FloorOf(state).pending;
      if pending.None? {
        var base := BaseOf(state, now);
        return if base.None? then None else Some((Pair(state.data, state.signature), base.value));
      }
      if pending.value.plan != plan || pending.value.revision != plan.catalog.revision {
        return None;
      }
      var saved := RetainedPair(state, plan);
      if saved.None? {
        return None;
      }
      var base := Authenticate(saved.value.data, saved.value.signature, now);
      return if base.None? then None else Some((saved.value, base.value));
    }

    /** plan: the reviewed document for the reports at these paths. */
    method MakePlan(paths: seq<string>, now: nat, inputs: Inputs, promote: bool) returns (r: Option<Plan>)
      ensures r == PlanNow(state, paths, now, inputs, promote)
    {
      hide BaseOf, Reserved, LoaderAccepts, BuildDocument;
      if !LoaderAccepts(FloorOf(state)) {
        return None;
      }
      var base, reserved := BaseOf(state, now), Reserved(state);
      if base.None? || reserved.None? {
        return None;
      }
      var built := Build(paths, base.value, reserved.value, now, now, inputs, promote);
      if built.None? {
        return None;
      }
      return Some(Plan(promote, BaseRevision(base.value), state.data, state.signature, built.value.0, built.value.1,
                       inputs.checkpoint));
    }

    /** Everything that is checked before the first write: the plan is rebuilt and compared. */
    method Review(plan: Plan, now: nat, inputs: Inputs) returns (r: Option<Pair>)
      ensures r == Admit(state, plan, now, inputs)
    {
      hide Ancestry, Reserved, LoaderAccepts, BuildDocument, OldOrNew, Paths;
      var f := FloorOf(state);
      if plan.reports == [] || !(0 < plan.catalog.issued <= MAX_TIME) || plan.catalog.issued > now ||
         !LoaderAccepts(f) || now < f.time {
        return None;
      }
      var read := Reread(plan, now);
      var reserved := Reserved(state);
      if read.None? || reserved.None? {
        return None;
      }
      var (pair, base) := read.value;
      var built := Build(Paths(plan.reports), base, reserved.value, plan.catalog.issued, now, inputs, plan.promote);
      if built.None? {
        return None;
      }
      var actual := Plan(plan.promote, BaseRevision(base), pair.data, pair.signature, built.value.0, built.value.1, inputs.checkpoint);
      if actual != plan || !plan.checkpoint.clean {
        return None;
      }
      var data := Document(plan.catalog);
      if f.pending.Some? &&
         (f.pending.value.sha != data || !OldOrNew(state.data, pair.data, data) ||
          !OldOrNew(state.signature, pair.signature, SignatureOf(data))) {
        return None;
      }
      return Some(pair);
    }

    /** publish: what is written is a prefix of the script, all of it unless the process died. */
    method Publish(plan: Plan, now: nat, inputs: Inputs) returns (o: Outcome)
      modifies this
      ensures Ran(old(state), PublishPart(old(state), plan, now, inputs), o, state)
      ensures Inv(old(state)) ==> Inv(state)
      ensures Inv(old(state)) && o.Done? ==> Published(state, plan, now)
    {
      hide Ran, Admit, EvidencePart, ArchivePart, AnnouncePart, SwitchPart, ApplyAll, Inv, Published, Then;
      ghost var s := state;
      var admitted := Review(plan, now, inputs);
      if admitted.None? {
        RanNothing(s, false);
        PublishedOrCut(s, plan, now, inputs, Refused, state);
        return Refused;
      }
      var pair := admitted.value;
      ghost var e, a := EvidencePart(s, plan.reports), ArchivePart(s, Document(plan.catalog));
      ghost var n, w := AnnouncePart(s, plan, pair, now), Part(SwitchPart(s, plan, now), true);
      o := UploadEvidence(plan.reports);
      ghost var o1, s1 := o, state;
      if o.Done? {
        DoneState(s, e, s1);
        AfterEvidence(s, plan);
        o := ArchiveCatalog(plan.catalog);
      }
      ghost var o2, s2 := o, state;
      if o.Done? {
        DoneState(s1, a, s2);
        AfterArchive(s, s1, s2, plan, pair, now);
        o := Announce(plan, pair, now);
      }
      ghost var o3, s3 := o, state;
      if o.Done? {
        DoneState(s2, n, s3);
        AfterAnnounce(s, s2, plan, pair, now);
        o := Switch(plan, now);
      }
      InOrder(s, e, o1, s1, a, o2, s2, n, o3, s3, w, o, state);
      PublishedOrCut(s, plan, now, inputs, o, state);
    }

    /** The reservation part of a trial run. */
    method RunTrial(p: TrialPlan, now: nat, inputs: Inputs, facts: TrialFacts) returns (o: Outcome)
      modifies this
      ensures Ran(old(state), TrialPart(old(state), p, now, inputs, facts), o, state)
      ensures Inv(old(state)) ==> Inv(state)
    {
      hide Ran, AdmitTrial, ApplyAll, Inv, Then;
      ghost var s := state;
      var admitted := AdmitTrial(state, p, now, inputs, facts);
      if admitted.None? {
        RanNothing(s, false);
        TrialCut(s, p, now, inputs, facts, Refused, state);
        return Refused;
      }
      var r, bytes := p.revision, Document(p.catalog);
      o := Done;
      var todo := if admitted.value then [] else TrialFiles(p);
      todo := todo + [Reserve(ReservationOf(p))];
      RanNothing(s, true);
      var k := 0;
      assert todo[..0] == [];
      while k < |todo| && o.Done?
        invariant k <= |todo| && !o.Refused?
        invariant o.Done? ==> Ran(s, Part(todo[..k], true), Done, state)
        invariant !o.Done? ==> Ran(s, Part(todo, true), o, state)
      {
        ghost var m := state;
        o := Put(todo[k]);
        ghost var a, b := Part(todo[..k], true), Part([todo[k]], true);
        RanThen(s, a, Done, m, b, o, state);
        ThenWrites(a, b);
        assert todo[..k + 1] == todo[..k] + [todo[k]];
        assert Then(a, b) == Part(todo[..k + 1], true);
        if o.Died? {
          ghost var c := Part(todo[k + 1..], true);
          RanThen(s, Then(a, b), o, state, c, o, state);
          ThenWrites(Then(a, b), c);
          assert todo[..k + 1] + todo[k + 1..] == todo;
        }
        k := k + 1;
      }
      assert o.Done? ==> todo[..k] == todo;
      TrialCut(s, p, now, inputs, facts, o, state);
    }
  }

  lemma ThenNothing(a: Part)
    ensures Then(Part([], true), a) == a && Then(a, Part([], true)) == a
  {
  }

  lemma DoneState(s: State, part: Part, t: State)
    requires Ran(s, part, Done, t)
    ensures t == ApplyAll(s, part.writes) && part.ok
  {
  }

  lemma EvidenceStep(s: State, reports: seq<Report>)
    requires reports != []
    ensures
      var first := EvidenceOne(s, reports[0]);
      EvidencePart(s, reports) == Then(first, EvidencePart(ApplyAll(s, first.writes), reports[1..]))
  {
  }

  /** Four parts one after the other. */
  lemma InOrder(s: State, a: Part, o1: Outcome, s1: State, b: Part, o2: Outcome, s2: State, c: Part, o3: Outcome, s3: State,
                d: Part, o: Outcome, t: State)
    requires Ran(s, a, o1, s1)
    requires if o1.Done? then Ran(s1, b, o2, s2) else o2 == o1 && s2 == s1
    requires if o2.Done? then Ran(s2, c, o3, s3) else o3 == o2 && s3 == s2
    requires if o3.Done? then Ran(s3, d, o, t) else o == o3 && t == s3
    ensures Ran(s, Then(a, Then(b, Then(c, d))), o, t)
  {
    hide Ran, Then;
    RanThen(s, a, o1, s1, b, o2, s2);
    RanThen(s, Then(a, b), o2, s2, c, o3, s3);
    RanThen(s, Then(Then(a, b), c), o3, s3, d, o, t);
    ThenAssociates(Then(a, b), c, d);
    ThenAssociates(a, b, Then(c, d));
  }

  lemma {:induction false} QuietCore(s: State, ws: seq<Write>)
    requires AllQuiet(ws)
    ensures SameCore(s, ApplyAll(s, ws))
    decreases |ws|
  {
    hide Apply, Archival, Staging;
    if ws != [] {
      QuietApply(s, ws[0]);
      assert forall k :: 0 <= k < |ws[1..]| ==> ws[1..][k] == ws[k + 1];
      QuietCore(Apply(s, ws[0]), ws[1..]);
    }
  }

  lemma AfterEvidence(s: State, plan: Plan)
    ensures
      var t := ApplyAll(s, EvidencePart(s, plan.reports).writes);
      SameCore(s, t) && SameCatalogFiles(s, t) && ArchivePart(t, Document(plan.catalog)) == ArchivePart(s, Document(plan.catalog))
  {
    hide ApplyAll, EvidencePart, ArchivePart, AllQuiet;
    var t := ApplyAll(s, EvidencePart(s, plan.reports).writes);
    EvidenceQuiet(s, plan.reports);
    QuietCore(s, EvidencePart(s, plan.reports).writes);
    EvidenceApart(s, plan.reports);
    ArchiveOver(s, t, Document(plan.catalog));
  }

  lemma AfterArchive(s: State, m: State, t: State, plan: Plan, pair: Pair, now: nat)
    requires SameCore(s, m) && SameCatalogFiles(s, m) && t == ApplyAll(m, ArchivePart(m, Document(plan.catalog)).writes)
    ensures SameCore(s, t) && AnnouncePart(t, plan, pair, now) == AnnouncePart(s, plan, pair, now)
  {
    hide ApplyAll, ArchivePart, StagePart, AllQuiet;
    var data := Document(plan.catalog);
    ArchiveDone(m, data);
    QuietCore(m, ArchivePart(m, data).writes);
    ArchiveApart(m, data);
    StageOver(s, t, plan, pair);
  }

  lemma AfterAnnounce(s: State, m: State, plan: Plan, pair: Pair, now: nat)
    requires SameCore(s, m) && AnnouncePart(m, plan, pair, now) == AnnouncePart(s, plan, pair, now)
    ensures SwitchPart(ApplyAll(m, AnnouncePart(s, plan, pair, now).writes), plan, now) == SwitchPart(s, plan, now)
  {
    hide ApplyAll, StagePart, SwitchPart, AllQuiet, PendingFloor;
    var g, n := StagePart(m, plan, pair), [SetFloor(PendingFloor(plan, now))];
    StageDone(m, plan, pair);
    QuietCore(m, g.writes);
    ApplyNone(m);
    ApplyAppend(m, g.writes, n);
    ApplyOne(ApplyAll(m, g.writes), n[0]);
    SwitchOver(s, ApplyAll(m, AnnouncePart(s, plan, pair, now).writes), plan, now);
  }

  lemma RanKeepsInv(s: State, part: Part, o: Outcome, t: State)
    requires Inv(s) && Safe(s, part.writes) && Ran(s, part, o, t)
    ensures Inv(t)
  {
    hide Inv, Safe, ApplyAll;
    if o.Died? {
      var kept: nat :| t == ApplyAll(s, Cut(part.writes, kept));
      var short := if kept <= |part.writes| then kept else |part.writes|;
      assert Cut(part.writes, kept) == part.writes[..short];
      SafePrefix(s, part.writes, short);
      SafeKeepsInv(s, part.writes[..short]);
    } else {
      SafeKeepsInv(s, part.writes);
    }
  }

  lemma OkIsAdmitted(s: State, plan: Plan, now: nat, inputs: Inputs)
    ensures PublishPart(s, plan, now, inputs).ok ==> Admit(s, plan, now, inputs).Some?
  {
    hide Admit, EvidencePart, ArchivePart, AnnouncePart, SwitchPart;
  }

  lemma PublishedOrCut(s: State, plan: Plan, now: nat, inputs: Inputs, o: Outcome, t: State)
    requires Ran(s, PublishPart(s, plan, now, inputs), o, t)
    ensures Inv(s) ==> Inv(t)
    ensures Inv(s) && o.Done? ==> Published(t, plan, now)
  {
    hide Inv, PublishPart, ApplyAll, Admit, Preparation, Safe, Published;
    if Inv(s) {
      PublishSafe(s, plan, now, inputs);
      RanKeepsInv(s, PublishPart(s, plan, now, inputs), o, t);
      if o.Done? {
        OkIsAdmitted(s, plan, now, inputs);
        if FloorOf(s).pending.Some? {
          ResumedRunSafe(s, plan, now, inputs);
        } else {
          FreshScript(s, plan, now, inputs);
          FreshRunSafe(s, plan, now, inputs);
        }
      }
    }
  }

  lemma TrialCut(s: State, p: TrialPlan, now: nat, inputs: Inputs, facts: TrialFacts, o: Outcome, t: State)
    requires Ran(s, TrialPart(s, p, now, inputs, facts), o, t)
    ensures Inv(s) ==> Inv(t)
  {
    hide Inv, TrialPart, Ran, Safe;
    if Inv(s) {
      TrialSafe(s, p, now, inputs, facts);
      RanKeepsInv(s, TrialPart(s, p, now, inputs, facts), o, t);
    }
  }
}

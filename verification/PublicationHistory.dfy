/**
 Whole histories of publications and private trials, each run cut off after any of its
 writes.
 */
module PublicationHistory {
  import opened StoreBytes
  import opened Interruption
  import opened CatalogModel
  import opened CatalogBuild
  import opened PublicationProtocol
  import opened PublicationSafety

  // ------------------------------------------------------------------ trials

  predicate TrialFile(w: Write, r: nat) {
    match w
    case MakeTrial(x) => x == r
    case WriteTrialPlan(x, _) => x == r
    case SignTrialPlan(x) => x == r
    case WriteTrialCatalog(x, _) => x == r
    case SignTrialCatalog(x) => x == r
    case _ => false
  }

  /** Everything but the files of trial `r`. */
  predicate SameBesides(s: State, t: State, r: nat) {
    && t.floor == s.floor && t.data == s.data && t.signature == s.signature && t.reservation == s.reservation
    && t.trialDirs - {r} == s.trialDirs - {r} && t.trialPlanSig - {r} == s.trialPlanSig - {r}
    && t.trialCatalogSig - {r} == s.trialCatalogSig - {r}
    && t.trialPlan - {r} == s.trialPlan - {r} && t.trialCatalog - {r} == s.trialCatalog - {r}
  }

  lemma TrialFileApart(s: State, w: Write, r: nat)
    requires TrialFile(w, r)
    ensures SameBesides(s, Apply(s, w), r)
  {
  }

  lemma BesidesKeepsReservation(s: State, t: State, r: nat)
    requires SameBesides(s, t, r) && ReservedRevision(s) < r
    ensures Reserved(t) == Reserved(s)
  {
    hide Authentic;
    if s.reservation.Some? {
      var x := s.reservation.value.revision;
      assert x in t.trialDirs <==> x in t.trialDirs - {r};
      assert x in s.trialDirs <==> x in s.trialDirs - {r};
      assert x in t.trialPlanSig <==> x in t.trialPlanSig - {r};
      assert x in s.trialPlanSig <==> x in s.trialPlanSig - {r};
      assert x in t.trialCatalogSig <==> x in t.trialCatalogSig - {r};
      assert x in s.trialCatalogSig <==> x in s.trialCatalogSig - {r};
      assert Lookup(t.trialPlan, x) == Lookup(t.trialPlan - {r}, x) && Lookup(s.trialPlan, x) == Lookup(s.trialPlan - {r}, x);
      assert Lookup(t.trialCatalog, x) == Lookup(t.trialCatalog - {r}, x);
      assert Lookup(s.trialCatalog, x) == Lookup(s.trialCatalog - {r}, x);
    }
  }

  lemma BesidesKeepsInv(s: State, t: State, r: nat)
    requires Inv(s) && SameBesides(s, t, r) && FloorOf(s).pending.None? && ReservedRevision(s) < r
    ensures GoodStep(s, t)
  {
    hide LoaderAccepts, Authentic, Reserved;
    assert FloorOf(t) == FloorOf(s);
    BesidesKeepsReservation(s, t, r);
  }

  predicate AllTrialFiles(ws: seq<Write>, r: nat) {
    forall k :: 0 <= k < |ws| ==> TrialFile(ws[k], r)
  }

  lemma {:induction false} TrialFilesSafe(s: State, ws: seq<Write>, r: nat)
    requires Inv(s) && FloorOf(s).pending.None? && ReservedRevision(s) < r && AllTrialFiles(ws, r)
    ensures Safe(s, ws) && SameBesides(s, ApplyAll(s, ws), r) && Inv(ApplyAll(s, ws))
    decreases |ws|
  {
    hide Inv, Apply, TrialFile, Forward, BindsOnlyNew, SameBesides;
    if ws == [] {
      assert SameBesides(s, s, r) by { BesidesSelf(s, r); }
    } else {
      var t := Apply(s, ws[0]);
      TrialFileApart(s, ws[0], r);
      BesidesKeepsInv(s, t, r);
      assert ReservedRevision(t) == ReservedRevision(s) && FloorOf(t) == FloorOf(s) by { BesidesCore(s, t, r); }
      assert forall k :: 0 <= k < |ws[1..]| ==> ws[1..][k] == ws[k + 1];
      TrialFilesSafe(t, ws[1..], r);
      BesidesTransitive(s, t, ApplyAll(s, ws), r);
    }
  }

  lemma BesidesSelf(s: State, r: nat)
    ensures SameBesides(s, s, r)
  {
  }

  lemma BesidesCore(s: State, t: State, r: nat)
    requires SameBesides(s, t, r)
    ensures ReservedRevision(t) == ReservedRevision(s) && DataRevision(t) == DataRevision(s) && FloorOf(t) == FloorOf(s)
  {
  }

  lemma BesidesTransitive(s: State, t: State, u: State, r: nat)
    requires SameBesides(s, t, r) && SameBesides(t, u, r)
    ensures SameBesides(s, u, r)
  {
  }

  /** What the trial directory holds after all five writes. */
  lemma TrialFilesDone(s: State, p: TrialPlan)
    ensures
      var t, r := ApplyAll(s, TrialFiles(p)), p.revision;
      && r in t.trialDirs && r in t.trialPlanSig && r in t.trialCatalogSig
      && Lookup(t.trialPlan, r) == Some(p) && Lookup(t.trialCatalog, r) == Some(Document(p.catalog))
  {
    hide ApplyAll;
    var ws := TrialFiles(p);
    var s1 := Apply(s, ws[0]);
    var s2 := Apply(s1, ws[1]);
    var s3 := Apply(s2, ws[2]);
    var s4 := Apply(s3, ws[3]);
    var s5 := Apply(s4, ws[4]);
    ApplyFirst(s, ws);
    ApplyFirst(s1, ws[1..]);
    ApplyFirst(s2, ws[1..][1..]);
    ApplyFirst(s3, ws[1..][1..][1..]);
    ApplyFirst(s4, ws[1..][1..][1..][1..]);
    assert ws[1..][1..][1..][1..][1..] == [];
    ApplyNone(s5);
  }

  lemma ApplyFirst(s: State, ws: seq<Write>)
    requires ws != []
    ensures ApplyAll(s, ws) == ApplyAll(Apply(s, ws[0]), ws[1..])
  {
  }

  lemma ReserveSafe(s: State, p: TrialPlan)
    requires Inv(s) && FloorOf(s).pending.None?
    requires p.revision > Used(s) && p.catalog.revision == p.revision && Authentic(p.catalog) && p.revision < U64_LIMIT
    requires p.revision in s.trialDirs && p.revision in s.trialPlanSig && p.revision in s.trialCatalogSig
    requires Lookup(s.trialPlan, p.revision) == Some(p) && Lookup(s.trialCatalog, p.revision) == Some(Document(p.catalog))
    ensures GoodStep(s, Apply(s, Reserve(ReservationOf(p))))
  {
    hide Authentic, LoaderAccepts;
    var t := Apply(s, Reserve(ReservationOf(p)));
    assert Reserved(t) == Some(p.revision);
    assert FloorOf(t) == FloorOf(s);
  }

  lemma AdmitTrialFacts(s: State, p: TrialPlan, now: nat, inputs: Inputs, facts: TrialFacts)
    requires Inv(s) && AdmitTrial(s, p, now, inputs, facts).Some?
    ensures FloorOf(s).pending.None?
    ensures AdmitTrial(s, p, now, inputs, facts) == Some(true) ==> s.reservation == Some(ReservationOf(p))
    ensures AdmitTrial(s, p, now, inputs, facts) == Some(false) ==>
              p.revision == Used(s) + 1 && p.catalog.revision == p.revision && Authentic(p.catalog) && p.revision < U64_LIMIT
  {
    hide LoaderAccepts, WellFormed, Authenticate;
    RevisionBound(p.catalog);
    assert Inv(s);
    AuthenticateBase(s, p.catalog.issued);
  }

  lemma AuthenticateBase(s: State, now: nat)
    ensures BaseOf(s, now).Some? ==> BaseRevision(BaseOf(s, now).value) == DataRevision(s)
  {
    hide Authentic;
  }

  /** With nothing pending, the public pair is an acceptable base from the floor's time and its own issue on. */
  lemma BaseExactlyWhen(s: State, now: nat)
    requires Inv(s) && FloorOf(s).pending.None?
    ensures BaseOf(s, now).Some? <==>
              now >= FloorOf(s).time && (s.data.Some? ==> s.data.value.Document? && s.data.value.catalog.issued <= now)
  {
    hide WellFormed, LoaderAccepts, Reserved;
    assert LoaderAccepts(FloorOf(s));
    FloorAtMost(s);
    if s.data.Some? && s.data.value.Document? {
      RevisionBound(s.data.value.catalog);
    }
  }

  lemma FloorAtMost(s: State)
    requires Inv(s) && FloorOf(s).pending.None?
    ensures FloorOf(s).revision > 0 ==> s.data == FloorOf(s).sha && s.data.Some? && DataRevision(s) == FloorOf(s).revision
  {
    hide Authentic, Reserved;
  }

  /** What a trial plan must satisfy apart from its revision. */
  predicate TrialReady(s: State, p: TrialPlan, now: nat, inputs: Inputs, facts: TrialFacts) {
    && FloorOf(s).pending.None? && p.catalog.issued >= FloorOf(s).time
    && (s.data.Some? ==> s.data.value.Document? && s.data.value.catalog.issued <= p.catalog.issued)
    && SameScope(p, inputs, facts) && p.checkpoint.clean && p.checkpoint == inputs.checkpoint && Valid(p.catalog, now)
  }

  /**
   A trial is admitted exactly when nothing is pending, it is clean, valid and in scope, and
   either it holds the reservation itself or it has the next unused revision, whose
   directory does not exist yet.
   */
  lemma TrialAdmittedExactlyWhen(s: State, p: TrialPlan, now: nat, inputs: Inputs, facts: TrialFacts)
    requires Inv(s)
    ensures AdmitTrial(s, p, now, inputs, facts).Some? <==>
              && TrialReady(s, p, now, inputs, facts)
              && (|| s.reservation == Some(ReservationOf(p))
                  || (p.revision == Used(s) + 1 && p.revision !in s.trialDirs &&
                      Some(p.catalog) == TrialDocument(p, p.revision, p.catalog.issued, inputs, facts)))
  {
    hide WellFormed, BaseOf, Authentic, SameScope, TrialDocument, InFlight, Settled;
    assert LoaderAccepts(FloorOf(s));
    if FloorOf(s).pending.Some? {
      NoBaseWhilePending(s, p.catalog.issued);
    } else {
      BaseExactlyWhen(s, p.catalog.issued);
      AuthenticateBase(s, p.catalog.issued);
    }
  }

  lemma NoBaseWhilePending(s: State, now: nat)
    requires FloorOf(s).pending.Some?
    ensures BaseOf(s, now).None?
  {
  }

  /** A planned trial is admitted on the state it was planned for exactly when it is clean and valid and its directory is not taken. */
  lemma PlannedTrialIsAdmitted(s: State, runId: string, source: string, target: string, arch: string, now: nat, later: nat, inputs: Inputs,
                               facts: TrialFacts)
    requires Inv(s) && PlanTrial(s, runId, source, target, arch, now, inputs, facts).Some?
    ensures
      var p := PlanTrial(s, runId, source, target, arch, now, inputs, facts).value;
      && p.revision == Used(s) + 1
      && (AdmitTrial(s, p, later, inputs, facts).Some? <==>
            p.checkpoint.clean && Valid(p.catalog, later) && p.revision !in s.trialDirs)
  {
    hide Valid, BaseOf, Authentic, InFlight, Settled, AdmitTrial, LoaderAccepts;
    var p := PlanTrial(s, runId, source, target, arch, now, inputs, facts).value;
    TrialAdmittedExactlyWhen(s, p, later, inputs, facts);
    if FloorOf(s).pending.Some? {
      NoBaseWhilePending(s, now);
      assert false;
    }
    BaseExactlyWhen(s, now);
    AuthenticateBase(s, now);
  }

  /** Every write of a trial run keeps the invariant; a pending publication admits none. */
  lemma TrialSafe(s: State, p: TrialPlan, now: nat, inputs: Inputs, facts: TrialFacts)
    requires Inv(s)
    ensures Safe(s, TrialScript(s, p, now, inputs, facts))
  {
    hide Inv, AdmitTrial, Safe, ApplyAll, Authentic;
    var admitted := AdmitTrial(s, p, now, inputs, facts);
    SafeNone(s);
    if admitted.Some? {
      AdmitTrialFacts(s, p, now, inputs, facts);
      var reserve := Reserve(ReservationOf(p));
      if admitted.value {
        assert Apply(s, reserve) == s;
        SafeSingle(s, reserve);
        assert TrialScript(s, p, now, inputs, facts) == [reserve];
      } else {
        var ws := TrialFiles(p);
        TrialFilesSafe(s, ws, p.revision);
        TrialFilesDone(s, p);
        var t := ApplyAll(s, ws);
        BesidesCore(s, t, p.revision);
        ReserveSafe(t, p);
        SafeSingle(t, reserve);
        SafeAppend(s, ws, [reserve]);
        assert TrialScript(s, p, now, inputs, facts) == ws + [reserve];
      }
    }
  }

  // ------------------------------------------------------------------ histories

  /** One run of either tool, cut off after `kept` of its writes. */
  datatype Run =
    | Publication(plan: Plan, now: nat, inputs: Inputs, kept: nat)
    | Trial(trial: TrialPlan, now: nat, inputs: Inputs, facts: TrialFacts, kept: nat)

  function WritesOf(s: State, run: Run): seq<Write> {
    match run
    case Publication(plan, now, inputs, kept) => Cut(PublishScript(s, plan, now, inputs), kept)
    case Trial(p, now, inputs, facts, kept) => Cut(TrialScript(s, p, now, inputs, facts), kept)
  }

  /** The durable states a sequence of writes passes through, starting state included. */
  function Passes(s: State, ws: seq<Write>): (r: seq<State>)
    ensures |r| == |ws| + 1 && r[0] == s && r[|ws|] == ApplyAll(s, ws)
    decreases |ws|
  {
    if ws == [] then [s] else [s] + Passes(Apply(s, ws[0]), ws[1..])
  }

  function WritesOfAll(s: State, runs: seq<Run>): seq<Write>
    decreases |runs|
  {
    if runs == [] then []
    else
      var ws := WritesOf(s, runs[0]);
      ws + WritesOfAll(ApplyAll(s, ws), runs[1..])
  }

  /** Every durable state of a history. */
  function History(s: State, runs: seq<Run>): (r: seq<State>)
    ensures |r| >= 1 && r[0] == s
  {
    Passes(s, WritesOfAll(s, runs))
  }

  lemma RunSafe(s: State, run: Run)
    requires Inv(s)
    ensures Safe(s, WritesOf(s, run))
  {
    hide Inv, Safe, PublishScript, TrialScript;
    match run
    case Publication(plan, now, inputs, kept) =>
      var ws := PublishScript(s, plan, now, inputs);
      PublishSafe(s, plan, now, inputs);
      if kept <= |ws| { SafePrefix(s, ws, kept); }
    case Trial(p, now, inputs, facts, kept) =>
      var ws := TrialScript(s, p, now, inputs, facts);
      TrialSafe(s, p, now, inputs, facts);
      if kept <= |ws| { SafePrefix(s, ws, kept); }
  }

  lemma {:induction false} RunsSafe(s: State, runs: seq<Run>)
    requires Inv(s)
    ensures Safe(s, WritesOfAll(s, runs))
    decreases |runs|
  {
    hide Inv, Safe, WritesOf;
    SafeNone(s);
    if runs != [] {
      var ws := WritesOf(s, runs[0]);
      RunSafe(s, runs[0]);
      SafeKeepsInv(s, ws);
      RunsSafe(ApplyAll(s, ws), runs[1..]);
      SafeAppend(s, ws, WritesOfAll(ApplyAll(s, ws), runs[1..]));
    }
  }

  /** Each state a safe sequence passes through is reached from the one before by a good step. */
  lemma {:induction false} GoodSteps(s: State, ws: seq<Write>, k: nat)
    requires Inv(s) && Safe(s, ws) && k <= |ws|
    ensures Inv(Passes(s, ws)[k])
    ensures k > 0 ==> GoodStep(Passes(s, ws)[k - 1], Passes(s, ws)[k])
    decreases |ws|
  {
    hide Inv, Forward, BindsOnlyNew, Apply;
    if k > 0 {
      var t := Apply(s, ws[0]);
      GoodSteps(t, ws[1..], k - 1);
      assert Passes(s, ws)[k] == Passes(t, ws[1..])[k - 1];
      if k > 1 { assert Passes(s, ws)[k - 1] == Passes(t, ws[1..])[k - 2]; }
    }
  }

  /** Catalog bytes a revision is bound to, publicly or in the private reservation. */
  predicate Binds(s: State, revision: nat, bytes: Bytes) {
    || (s.data == Some(bytes) && bytes.Document? && bytes.catalog.revision == revision)
    || (s.reservation.Some? && s.reservation.value.revision == revision && s.reservation.value.catalog == bytes)
  }

  /** What a reader finds in any single durable state. */
  predicate Consistent(s: State) {
    var f := FloorOf(s);
    && LoaderAccepts(f)
    && match f.pending
       case None => PairAuthentic(s.data, s.signature) && (f.revision > 0 ==> s.data == f.sha)
       case Some(p) =>
         && (s.data == p.plan.baseSha || s.data == Some(Document(p.plan.catalog)))
         && (s.signature == p.plan.baseSignature || s.signature == Some(SignatureOf(Document(p.plan.catalog))))
         && (s.signature == Some(SignatureOf(Document(p.plan.catalog))) ==> s.data == Some(Document(p.plan.catalog)))
         && PairAuthentic(p.plan.baseSha, p.plan.baseSignature) && Authentic(p.plan.catalog)
  }

  lemma InvIsConsistent(s: State)
    requires Inv(s)
    ensures Consistent(s)
  {
    hide LoaderAccepts, Authentic;
  }

  lemma BindsAtMostUsed(s: State, revision: nat, bytes: Bytes)
    requires Binds(s, revision, bytes)
    ensures revision <= Used(s)
  {
  }

  lemma BoundOnce(s: State, revision: nat, a: Bytes, b: Bytes)
    requires Inv(s) && Binds(s, revision, a) && Binds(s, revision, b)
    ensures a == b
  {
    hide LoaderAccepts, FloorDescribes, InFlight;
    assert DataRevision(s) == 0 && s.data.Some? && s.data.value.Document? && s.reservation.Some? ==>
      ReservedRevision(s) > 0;
  }

  /** A binding after a good step is old or larger than everything used before. */
  lemma BindingIsOldOrNew(s: State, t: State, revision: nat, bytes: Bytes)
    requires BindsOnlyNew(s, t) && Binds(t, revision, bytes)
    ensures Binds(s, revision, bytes) || revision > Used(s)
  {
  }

  /** Between any two moments of a safe history. */
  lemma {:induction false} Between(s: State, ws: seq<Write>, i: nat, j: nat)
    requires Inv(s) && Safe(s, ws) && i <= j <= |ws|
    ensures Forward(Passes(s, ws)[i], Passes(s, ws)[j])
    ensures forall v: nat, a, b :: Binds(Passes(s, ws)[i], v, a) && Binds(Passes(s, ws)[j], v, b) ==> a == b
    decreases j - i
  {
    hide Inv, Apply, ApplyAll, Passes, Safe, Binds, BindsOnlyNew, Used;
    var states := Passes(s, ws);
    GoodSteps(s, ws, i);
    GoodSteps(s, ws, j);
    if i == j {
      forall v: nat, a, b | Binds(states[i], v, a) && Binds(states[j], v, b) ensures a == b {
        BoundOnce(states[i], v, a, b);
      }
    } else {
      Between(s, ws, i, j - 1);
      forall v: nat, a, b | Binds(states[i], v, a) && Binds(states[j], v, b) ensures a == b {
        BindingIsOldOrNew(states[j - 1], states[j], v, b);
        BindsAtMostUsed(states[i], v, a);
      }
    }
  }

  /**
   Over every history of interleaved publications and trials, each cut off anywhere: in
   every durable state the floor passes its own loader and each half of the public pair is
   the old or the new one; floor revision and time never decrease; and no revision is ever
   bound to two different catalogs.
   */
  lemma EveryHistoryIsSafe(s: State, runs: seq<Run>, i: nat, j: nat)
    requires Inv(s) && i <= j < |History(s, runs)|
    ensures Consistent(History(s, runs)[j])
    ensures FloorOf(History(s, runs)[i]).revision <= FloorOf(History(s, runs)[j]).revision
    ensures FloorOf(History(s, runs)[i]).time <= FloorOf(History(s, runs)[j]).time
    ensures forall v: nat, a, b :: Binds(History(s, runs)[i], v, a) && Binds(History(s, runs)[j], v, b) ==> a == b
  {
    hide Inv, Passes, Safe, Binds, Used, Consistent, WritesOfAll;
    RunsSafe(s, runs);
    var ws := WritesOfAll(s, runs);
    Between(s, ws, i, j);
    GoodSteps(s, ws, j);
    InvIsConsistent(Passes(s, ws)[j]);
  }

  const Nothing: State := State(None, None, None, map[], map[], map[], map[], map[], map[], map[], map[], {}, map[], {}, map[], {}, None)

  /** The empty registry with no protected state is where histories start. */
  lemma FirstState()
    ensures Inv(Nothing)
  {
  }

  /** Every history from the empty registry is safe. */
  lemma EveryHistoryFromNothingIsSafe(runs: seq<Run>, i: nat, j: nat)
    requires i <= j < |History(Nothing, runs)|
    ensures Consistent(History(Nothing, runs)[j])
    ensures FloorOf(History(Nothing, runs)[i]).revision <= FloorOf(History(Nothing, runs)[j]).revision
    ensures FloorOf(History(Nothing, runs)[i]).time <= FloorOf(History(Nothing, runs)[j]).time
    ensures forall v: nat, a, b :: Binds(History(Nothing, runs)[i], v, a) && Binds(History(Nothing, runs)[j], v, b) ==> a == b
  {
    hide Inv, History, Binds, Consistent;
    FirstState();
    EveryHistoryIsSafe(Nothing, runs, i, j);
  }

  lemma EveryReachableStateKeepsInv(s: State, runs: seq<Run>)
    requires Inv(s)
    ensures Inv(ApplyAll(s, WritesOfAll(s, runs)))
  {
    hide Inv, WritesOfAll, Safe;
    RunsSafe(s, runs);
    SafeKeepsInv(s, WritesOfAll(s, runs));
  }

  // ------------------------------------------------------------------ resuming

  /** While a publication is pending every trial and every other plan is refused without a write. */
  lemma OnlyThePendingPlanProceeds(s: State, run: Run)
    requires FloorOf(s).pending.Some?
    requires run.Publication? ==> run.plan != FloorOf(s).pending.value.plan
    ensures WritesOf(s, run) == []
  {
    hide BuildDocument, Authenticate, RetainedPair, Reserved, LoaderAccepts, TrialDocument;
  }

  // ------------------------------------------------------------------ interrupted trials

  lemma TrialScriptCut(s: State, p: TrialPlan, now: nat, inputs: Inputs, facts: TrialFacts, kept: nat)
    requires AdmitTrial(s, p, now, inputs, facts) == Some(false) && 1 <= kept <= 5
    ensures Cut(TrialScript(s, p, now, inputs, facts), kept) == TrialFiles(p)[..kept]
    ensures p.revision in ApplyAll(s, TrialFiles(p)[..kept]).trialDirs
  {
    hide AdmitTrial, ApplyAll;
    var ws := TrialFiles(p)[..kept];
    assert ws == [MakeTrial(p.revision)] + ws[1..];
    ApplyFirst(s, ws);
    DirsGrow(Apply(s, ws[0]), ws[1..]);
  }

  lemma {:induction false} DirsGrow(s: State, ws: seq<Write>)
    ensures s.trialDirs <= ApplyAll(s, ws).trialDirs
    decreases |ws|
  {
    hide Apply;
    if ws != [] {
      DirsStay(s, ws[0]);
      DirsGrow(Apply(s, ws[0]), ws[1..]);
    }
  }

  lemma DirsStay(s: State, w: Write)
    ensures s.trialDirs <= Apply(s, w).trialDirs
  {
  }

  /** The directory of the next unused revision exists although no reservation names it. */
  predicate TrialsBlocked(s: State) {
    Used(s) + 1 in s.trialDirs
  }

  /** While the next directory is taken, a trial is admitted only if it holds the reservation already. */
  lemma BlockedAdmitsNoNewTrial(s: State, q: TrialPlan, now: nat, inputs: Inputs, facts: TrialFacts)
    requires Inv(s) && TrialsBlocked(s) && AdmitTrial(s, q, now, inputs, facts).Some?
    ensures s.reservation == Some(ReservationOf(q))
  {
    hide Inv, AdmitTrial, TrialReady, TrialDocument, Used;
    TrialAdmittedExactlyWhen(s, q, now, inputs, facts);
  }

  /**
   A trial that is cut off after its directory was made and before its reservation blocks
   every new trial, itself included.
   */
  lemma CutTrialBlocksTrials(s: State, p: TrialPlan, now: nat, inputs: Inputs, facts: TrialFacts, kept: nat)
    requires Inv(s) && AdmitTrial(s, p, now, inputs, facts) == Some(false) && 1 <= kept <= 5
    ensures
      var t := ApplyAll(s, WritesOf(s, Trial(p, now, inputs, facts, kept)));
      Inv(t) && TrialsBlocked(t) && t.reservation == s.reservation && t.reservation != Some(ReservationOf(p))
  {
    hide Inv, AdmitTrial, ApplyAll, TrialScript, SameBesides, TrialFile;
    AdmitTrialFacts(s, p, now, inputs, facts);
    TrialScriptCut(s, p, now, inputs, facts, kept);
    var ws := TrialFiles(p)[..kept];
    TrialFilesAre(p, kept);
    TrialFilesSafe(s, ws, p.revision);
    BesidesCore(s, ApplyAll(s, ws), p.revision);
    BesidesReservation(s, ApplyAll(s, ws), p.revision);
  }

  lemma TrialFilesAre(p: TrialPlan, kept: nat)
    requires kept <= 5
    ensures AllTrialFiles(TrialFiles(p)[..kept], p.revision)
  {
  }

  lemma BesidesReservation(s: State, t: State, r: nat)
    requires SameBesides(s, t, r)
    ensures t.reservation == s.reservation
  {
  }

  /** Blocked for good: however many trials are tried, each cut off anywhere, nothing changes until a publication takes the revision. */
  lemma {:induction false} TrialsStayBlocked(s: State, runs: seq<Run>)
    requires Inv(s) && TrialsBlocked(s) && forall k :: 0 <= k < |runs| ==> runs[k].Trial?
    ensures ApplyAll(s, WritesOfAll(s, runs)) == s
    decreases |runs|
  {
    hide Inv, TrialsBlocked, WritesOf;
    ApplyNone(s);
    if runs != [] {
      var ws := WritesOf(s, runs[0]);
      BlockedTrialChangesNothing(s, runs[0]);
      assert forall k :: 0 <= k < |runs[1..]| ==> runs[1..][k] == runs[k + 1];
      TrialsStayBlocked(s, runs[1..]);
      ApplyAppend(s, ws, WritesOfAll(s, runs[1..]));
    }
  }

  lemma BlockedTrialChangesNothing(s: State, run: Run)
    requires Inv(s) && TrialsBlocked(s) && run.Trial?
    ensures ApplyAll(s, WritesOf(s, run)) == s
  {
    hide Inv, AdmitTrial, TrialsBlocked, ApplyAll;
    ApplyNone(s);
    var admitted := AdmitTrial(s, run.trial, run.now, run.inputs, run.facts);
    if admitted.Some? {
      BlockedAdmitsNoNewTrial(s, run.trial, run.now, run.inputs, run.facts);
      AdmitTrialFacts(s, run.trial, run.now, run.inputs, run.facts);
      NotNewAndReserved(s, run.trial);
      var reserve := Reserve(ReservationOf(run.trial));
      assert TrialScript(s, run.trial, run.now, run.inputs, run.facts) == [reserve];
      ApplyOne(s, reserve);
      assert WritesOf(s, run) == [] || WritesOf(s, run) == [reserve];
    }
  }

  lemma NotNewAndReserved(s: State, p: TrialPlan)
    requires s.reservation == Some(ReservationOf(p))
    ensures p.revision <= Used(s)
  {
  }

  /** Building again differs only through the clock: freshness and validity. */
  lemma BuildAgain(paths: seq<string>, base: Option<Catalog>, reserved: nat, again: nat, issued: nat, now: nat, later: nat,
                   inputs: Inputs, promote: bool)
    requires BuildDocument(paths, base, reserved, issued, now, inputs, promote).Some?
    requires Max(BaseRevision(base), again) == Max(BaseRevision(base), reserved)
    ensures
      var (reports, document) := BuildDocument(paths, base, reserved, issued, now, inputs, promote).value;
      BuildDocument(paths, base, again, issued, later, inputs, promote) ==
        if AllFresh(reports, later) && Current(document, later) then Some((reports, document)) else None
  {
    hide WellFormed, Sort, AddTransitions, AddRelease, ReadReports, Fresh;
    var (reports, document) := BuildDocument(paths, base, reserved, issued, now, inputs, promote).value;
    ReportsAgain(reports, inputs, now, later);
  }

  lemma ReportsAgain(reports: seq<Report>, inputs: Inputs, now: nat, later: nat)
    requires ReportsOk(reports, inputs, now)
    ensures ReportsOk(reports, inputs, later) <==> AllFresh(reports, later)
  {
    hide Fresh;
    if ReportsOk(reports, inputs, later) {
      forall k | 0 <= k < |reports| ensures Fresh(reports[k], later) {
        assert ReportOk(reports[k], inputs, later);
      }
    }
    if AllFresh(reports, later) {
      forall k | 0 <= k < |reports| ensures ReportOk(reports[k], inputs, later) {
        assert ReportOk(reports[k], inputs, now);
      }
    }
  }

  predicate AllFresh(reports: seq<Report>, now: nat) {
    forall k :: 0 <= k < |reports| ==> Fresh(reports[k], now)
  }

  predicate Current(c: Catalog, now: nat) {
    0 < now <= MAX_TIME && c.issued <= now < c.expires
  }

  /**
   A plan that was announced with these inputs is admitted again exactly when the clock has
   not gone back, its reports are still fresh and its catalog has not expired.
   */
  lemma ResumesExactlyWhen(s: State, plan: Plan, reserved: nat, earlier: nat, now: nat, inputs: Inputs)
    requires Inv(s) && FloorOf(s).pending.Some? && FloorOf(s).pending.value.plan == plan
    requires Rebuilt(plan, reserved, earlier, inputs)
    ensures Admit(s, plan, now, inputs).Some? <==>
              now >= FloorOf(s).time && AllFresh(plan.reports, now) && Current(plan.catalog, now)
  {
    hide BuildDocument, Authenticate, LoaderAccepts, FloorDescribes, Reserved, Authentic, OldOrNew, AllFresh, Current, PairAuthentic, Archived;
    var f := FloorOf(s);
    var base := CatalogOf(plan.baseSha);
    RebuiltFacts(plan, reserved, earlier, inputs);
    BuildAgain(Paths(plan.reports), base, reserved, ReservedRevision(s), plan.catalog.issued, earlier, now, inputs, plan.promote);
    SomeReports(plan, reserved, earlier, inputs);
    if now >= f.time {
      RetainedAuthentic(s, plan, now);
    }
    if Current(plan.catalog, now) { assert plan.catalog.issued <= now by { IssuedBefore(plan.catalog, now); } }
    IssuedInRange(plan.catalog);
  }

  lemma IssuedBefore(c: Catalog, now: nat)
    requires Current(c, now)
    ensures c.issued <= now
  {
  }

  lemma IssuedInRange(c: Catalog)
    requires Authentic(c)
    ensures 0 < c.issued <= MAX_TIME
  {
  }

  lemma SomeReports(plan: Plan, reserved: nat, now: nat, inputs: Inputs)
    requires Rebuilt(plan, reserved, now, inputs)
    ensures plan.reports != []
  {
    hide Valid, NextDocument, ReadReports, ReportOk;
  }

  /** The retained base pair authenticates as the base the plan was built on. */
  lemma RetainedAuthentic(s: State, plan: Plan, now: nat)
    requires Inv(s) && FloorOf(s).pending.Some? && FloorOf(s).pending.value.plan == plan && now >= FloorOf(s).time
    requires plan.baseRevision == BaseRevision(CatalogOf(plan.baseSha))
    ensures RetainedPair(s, plan) == Some(Pair(plan.baseSha, plan.baseSignature))
    ensures Authenticate(plan.baseSha, plan.baseSignature, now) == Some(CatalogOf(plan.baseSha))
  {
    hide Authentic, Archived, Reserved;
    assert LoaderAccepts(FloorOf(s));
  }

  /**
   A publication that was cut off after its announcement, whatever runs came between, is
   completed by running the same plan on the same inputs: both halves are new, the floor is
   at the new catalog and nothing is pending.
   */
  lemma RerunCompletes(s: State, plan: Plan, earlier: nat, inputs: Inputs, between: seq<Run>, now: nat)
    requires Inv(s) && Admit(s, plan, earlier, inputs).Some?
    requires
      var t := ApplyAll(s, WritesOfAll(s, between));
      && FloorOf(t).pending.Some? && FloorOf(t).pending.value.plan == plan
      && now >= FloorOf(t).time && AllFresh(plan.reports, now) && Current(plan.catalog, now)
    ensures
      var t := ApplyAll(s, WritesOfAll(s, between));
      Published(ApplyAll(t, PublishScript(t, plan, now, inputs)), plan, now)
  {
    hide Inv, Admit, PublishScript, WritesOfAll, Rebuilt, AllFresh, Current, Published, Safe, ApplyAll;
    AdmitRebuilds(s, plan, earlier, inputs);
    EveryReachableStateKeepsInv(s, between);
    var t := ApplyAll(s, WritesOfAll(s, between));
    ResumesExactlyWhen(t, plan, ReservedRevision(s), earlier, now, inputs);
    ResumedRunSafe(t, plan, now, inputs);
  }

  /** An expired plan is not admitted. */
  lemma ExpiredIsRefused(s: State, plan: Plan, now: nat, inputs: Inputs)
    requires Inv(s) && now >= plan.catalog.expires
    ensures Admit(s, plan, now, inputs).None?
  {
    hide Inv, Admit, WellFormed, Rebuilt, PairAuthentic;
    if Admit(s, plan, now, inputs).Some? {
      AdmitRebuilds(s, plan, now, inputs);
      RebuiltFacts(plan, ReservedRevision(s), now, inputs);
      assert false;
    }
  }

  /**
   Once the pending plan's catalog has expired, nothing is written any more: no run of any
   plan and no trial, for ever.
   */
  lemma {:induction false} ExpiredPendingIsStuck(s: State, runs: seq<Run>)
    requires Inv(s) && FloorOf(s).pending.Some?
    requires forall k :: 0 <= k < |runs| ==> runs[k].now >= FloorOf(s).pending.value.plan.catalog.expires
    ensures WritesOfAll(s, runs) == []
    decreases |runs|
  {
    hide Inv, WritesOf;
    if runs != [] {
      var run := runs[0];
      if run.Publication? && run.plan == FloorOf(s).pending.value.plan {
        ExpiredIsRefused(s, run.plan, run.now, run.inputs);
        RefusedWritesNothing(s, run);
      } else {
        OnlyThePendingPlanProceeds(s, run);
      }
      ApplyNone(s);
      assert forall k :: 0 <= k < |runs[1..]| ==> runs[1..][k] == runs[k + 1];
      ExpiredPendingIsStuck(s, runs[1..]);
    }
  }

  lemma RefusedWritesNothing(s: State, run: Run)
    requires run.Publication? && Admit(s, run.plan, run.now, run.inputs).None?
    ensures WritesOf(s, run) == []
  {
    hide Admit;
  }

  // ------------------------------------------------------------------ when a new publication completes

  /** A write-once place that is empty or already holds the value. */
  predicate Free<T(==)>(present: Option<T>, value: T) {
    present.None? || present == Some(value)
  }

  predicate EvidenceFree(s: State, reports: seq<Report>) {
    && (forall k :: 0 <= k < |reports| ==>
          Free(Lookup(s.evidence, reports[k].sha), reports[k].sha) &&
          Free(Lookup(s.evidenceSig, reports[k].sha), reports[k].signature))
    && (forall i, j :: 0 <= i < j < |reports| && reports[i].sha == reports[j].sha ==> reports[i].signature == reports[j].signature)
  }

  /** No write-once place this publication needs is taken by something else. */
  predicate AllFree(s: State, plan: Plan, pair: Pair) {
    var r, data := plan.catalog.revision, Document(plan.catalog);
    && EvidenceFree(s, plan.reports)
    && Free(Lookup(s.archive, r), data) && Free(Lookup(s.archiveSig, r), SignatureOf(data))
    && Free(Lookup(s.staged, r), data) && Free(Lookup(s.stagedSig, r), SignatureOf(data))
    && (pair.data.Some? ==> Free(Lookup(s.stagedBase, r), pair.data.value))
    && (pair.signature.Some? ==> Free(Lookup(s.stagedBaseSig, r), pair.signature.value))
  }

  lemma EvidenceOneFree(s: State, r: Report)
    ensures EvidenceOne(s, r).ok <==> Free(Lookup(s.evidence, r.sha), r.sha) && Free(Lookup(s.evidenceSig, r.sha), r.signature)
    ensures
      var t := ApplyAll(s, EvidenceOne(s, r).writes);
      EvidenceOne(s, r).ok ==>
        t.evidence == s.evidence[r.sha := r.sha] && t.evidenceSig == s.evidenceSig[r.sha := r.signature]
  {
    hide ApplyAll;
    var a := Once(Lookup(s.evidence, r.sha), r.sha, PutEvidence(r.sha, r.sha));
    var b := Once(Lookup(s.evidenceSig, r.sha), r.signature, PutEvidenceSig(r.sha, r.signature));
    OnceApplied(s, Lookup(s.evidence, r.sha), r.sha, PutEvidence(r.sha, r.sha));
    OnceApplied(ApplyAll(s, a.writes), Lookup(s.evidenceSig, r.sha), r.signature, PutEvidenceSig(r.sha, r.signature));
    ApplyAppend(s, a.writes, b.writes);
  }

  lemma FreeAfterOne(s: State, t: State, reports: seq<Report>)
    requires reports != []
    requires Free(Lookup(s.evidence, reports[0].sha), reports[0].sha)
    requires Free(Lookup(s.evidenceSig, reports[0].sha), reports[0].signature)
    requires t.evidence == s.evidence[reports[0].sha := reports[0].sha]
    requires t.evidenceSig == s.evidenceSig[reports[0].sha := reports[0].signature]
    ensures EvidenceFree(s, reports) <==> EvidenceFree(t, reports[1..])
  {
    var rest := reports[1..];
    assert forall k :: 0 <= k < |rest| ==> rest[k] == reports[k + 1];
    if EvidenceFree(s, reports) {
      forall k | 0 <= k < |rest|
        ensures Free(Lookup(t.evidence, rest[k].sha), rest[k].sha) && Free(Lookup(t.evidenceSig, rest[k].sha), rest[k].signature)
      {
        assert rest[k] == reports[k + 1];
      }
      assert EvidenceFree(t, rest);
    }
    if EvidenceFree(t, rest) {
      forall k | 0 <= k < |reports|
        ensures Free(Lookup(s.evidence, reports[k].sha), reports[k].sha)
        ensures Free(Lookup(s.evidenceSig, reports[k].sha), reports[k].signature)
        ensures reports[0].sha == reports[k].sha ==> reports[0].signature == reports[k].signature
      {
        if k > 0 { assert reports[k] == rest[k - 1]; }
      }
      forall i, j | 0 <= i < j < |reports| && reports[i].sha == reports[j].sha ensures reports[i].signature == reports[j].signature {
        if i > 0 { assert reports[i] == rest[i - 1] && reports[j] == rest[j - 1]; }
      }
    }
  }

  lemma {:induction false} EvidencePartFree(s: State, reports: seq<Report>)
    ensures EvidencePart(s, reports).ok <==> EvidenceFree(s, reports)
    decreases |reports|
  {
    hide ApplyAll, EvidenceOne, Free;
    if reports != [] {
      var t := ApplyAll(s, EvidenceOne(s, reports[0]).writes);
      EvidenceOneFree(s, reports[0]);
      if EvidenceOne(s, reports[0]).ok {
        EvidencePartFree(t, reports[1..]);
        FreeAfterOne(s, t, reports);
      }
    }
  }

  lemma PreparationFree(s: State, plan: Plan, pair: Pair)
    ensures Preparation(s, plan, pair).ok <==> AllFree(s, plan, pair)
  {
    hide EvidencePart, EvidenceFree;
    EvidencePartFree(s, plan.reports);
  }

  /**
   An admitted new publication completes exactly when every write-once place it needs is
   free or already holds the same bytes; otherwise the floor and the public pair stay as
   they were.  A place can be taken by an earlier run of a different plan for the same
   revision that was cut off before its announcement.
   */
  lemma PublishesExactlyWhen(s: State, plan: Plan, now: nat, inputs: Inputs)
    requires Inv(s) && FloorOf(s).pending.None? && Admit(s, plan, now, inputs).Some?
    ensures
      var t := ApplyAll(s, PublishScript(s, plan, now, inputs));
      && (Published(t, plan, now) <==> AllFree(s, plan, Pair(s.data, s.signature)))
      && (!AllFree(s, plan, Pair(s.data, s.signature)) ==> SameCore(s, t))
  {
    hide Inv, Admit, PublishScript, Preparation, ApplyAll, AllFree, Rebuilt, AllQuiet, Safe, PairAuthentic;
    var pair := Admit(s, plan, now, inputs).value;
    AdmitRebuilds(s, plan, now, inputs);
    RebuiltFacts(plan, ReservedRevision(s), now, inputs);
    PreparationFree(s, plan, pair);
    PreparationDone(s, plan, pair);
    FreshRunSafe(s, plan, now, inputs);
    FreshScript(s, plan, now, inputs);
    if !Preparation(s, plan, pair).ok {
      QuietWritesSafe(s, Preparation(s, plan, pair).writes);
    }
  }

  // ------------------------------------------------------------------ a cut-off plan that blocks another

  /** Quiet writes change nothing an admission looks at while nothing is pending. */
  lemma AdmitSameCore(s: State, t: State, plan: Plan, now: nat, inputs: Inputs)
    requires SameCore(s, t) && FloorOf(s).pending.None?
    ensures FloorOf(t) == FloorOf(s) && Admit(t, plan, now, inputs) == Admit(s, plan, now, inputs)
  {
    hide Authenticate, LoaderAccepts, PlanFor, Paths, Authentic;
    assert Reserved(t) == Reserved(s);
  }

  /** How many writes a new publication has made when its catalog is in the archive. */
  function UntilArchived(s: State, plan: Plan): nat {
    |EvidencePart(s, plan.reports).writes| + (if plan.catalog.revision in s.archive then 0 else 1)
  }

  lemma ArchivedByThen(s: State, plan: Plan, pair: Pair, now: nat, inputs: Inputs)
    requires FloorOf(s).pending.None? && Admit(s, plan, now, inputs) == Some(pair) && AllFree(s, plan, pair)
    ensures
      var ws := Cut(PublishScript(s, plan, now, inputs), UntilArchived(s, plan));
      && AllQuiet(ws) && Lookup(ApplyAll(s, ws).archive, plan.catalog.revision) == Some(Document(plan.catalog))
  {
    hide Admit, AllFree, EvidencePart, StagePart, SwitchPart, PublishScript, ApplyAll, AllQuiet;
    var r, data := plan.catalog.revision, Document(plan.catalog);
    var e := EvidencePart(s, plan.reports);
    var a := Once(Lookup(s.archive, r), data, PutArchive(r, data));
    PreparationFree(s, plan, pair);
    FreshScript(s, plan, now, inputs);
    EvidenceQuiet(s, plan.reports);
    EvidenceApart(s, plan.reports);
    OnceQuiet(Lookup(s.archive, r), data, PutArchive(r, data));
    ThenQuiet(e, a);
    var script := PublishScript(s, plan, now, inputs);
    assert e.writes + a.writes <= script;
    assert Cut(script, UntilArchived(s, plan)) == e.writes + a.writes;
    ApplyAppend(s, e.writes, a.writes);
    OnceApplied(ApplyAll(s, e.writes), Lookup(s.archive, r), data, PutArchive(r, data));
  }

  lemma OnceQuiet<T>(present: Option<T>, value: T, w: Write)
    requires Archival(w) || Staging(w)
    ensures AllQuiet(Once(present, value, w).writes)
  {
  }

  /**
   Two different plans for the same state claim the same revision.  When the first is cut
   off as soon as its catalog is archived, the second is still admitted but can no longer
   be published: its run leaves the floor and the public pair as they are.
   */
  lemma CutPublicationBlocksAnother(s: State, a: Plan, b: Plan, nowA: nat, inputsA: Inputs, nowB: nat, inputsB: Inputs)
    requires Inv(s) && FloorOf(s).pending.None?
    requires Admit(s, a, nowA, inputsA).Some? && Admit(s, b, nowB, inputsB).Some? && a.catalog != b.catalog
    requires AllFree(s, a, Pair(s.data, s.signature))
    ensures a.catalog.revision == b.catalog.revision
    ensures
      var t := ApplyAll(s, WritesOf(s, Publication(a, nowA, inputsA, UntilArchived(s, a))));
      && Inv(t) && FloorOf(t).pending.None? && Admit(t, b, nowB, inputsB).Some? && !AllFree(t, b, Pair(t.data, t.signature))
      && SameCore(t, ApplyAll(t, PublishScript(t, b, nowB, inputsB)))
  {
    hide Inv, Admit, PublishScript, ApplyAll, AllQuiet, Rebuilt, PairAuthentic, UntilArchived, EvidenceFree;
    var pair := Pair(s.data, s.signature);
    AdmitRebuilds(s, a, nowA, inputsA);
    RebuiltFacts(a, ReservedRevision(s), nowA, inputsA);
    AdmitRebuilds(s, b, nowB, inputsB);
    RebuiltFacts(b, ReservedRevision(s), nowB, inputsB);
    ArchivedByThen(s, a, pair, nowA, inputsA);
    var ws := Cut(PublishScript(s, a, nowA, inputsA), UntilArchived(s, a));
    QuietWritesSafe(s, ws);
    var t := ApplyAll(s, ws);
    AdmitSameCore(s, t, b, nowB, inputsB);
    PublishesExactlyWhen(t, b, nowB, inputsB);
  }

  // ------------------------------------------------------------------ planning and publishing agree

  lemma {:induction false} ReadPaths(paths: seq<string>, inputs: Inputs)
    requires ReadReports(paths, inputs).Some?
    ensures Paths(ReadReports(paths, inputs).value) == paths
  {
    if paths != [] {
      ReadPaths(paths[..|paths| - 1], inputs);
    }
  }

  lemma PlannedFromState(s: State, paths: seq<string>, now: nat, inputs: Inputs, promote: bool)
    requires PlanNow(s, paths, now, inputs, promote).Some? && Inv(s)
    ensures
      var plan := PlanNow(s, paths, now, inputs, promote).value;
      && FloorOf(s).pending.None? && now >= FloorOf(s).time
      && BaseOf(s, now) == Some(CatalogOf(s.data))
      && plan.promote == promote && plan.catalog.issued == now && plan.reports != [] && Paths(plan.reports) == paths
      && plan.baseSha == s.data && plan.baseSignature == s.signature
      && plan.baseRevision == BaseRevision(CatalogOf(s.data)) && plan.checkpoint == inputs.checkpoint
      && BuildDocument(paths, CatalogOf(s.data), ReservedRevision(s), now, now, inputs, promote) == Some((plan.reports, plan.catalog))
  {
    hide Authenticate, Reserved, LoaderAccepts, AddRelease, AddTransitions, Sort, ReadReports, ReportOk, WellFormed, InFlight, Settled;
    ReadPaths(paths, inputs);
    AuthenticateFacts(s.data, s.signature, now);
  }

  /** The same public pair is still an acceptable base at any later time. */
  lemma BaseLater(s: State, now: nat, later: nat)
    requires BaseOf(s, now).Some? && now <= later
    ensures BaseOf(s, later) == BaseOf(s, now)
  {
    hide Authentic;
  }

  /**
   A plan is admitted on the state it was made for exactly when its checkpoint was clean
   and, at that later time, its reports are still fresh and its catalog has not expired.
   */
  lemma PlannedIsAdmitted(s: State, paths: seq<string>, now: nat, later: nat, inputs: Inputs, promote: bool)
    requires Inv(s) && PlanNow(s, paths, now, inputs, promote).Some? && now <= later
    ensures
      var plan := PlanNow(s, paths, now, inputs, promote).value;
      Admit(s, plan, later, inputs).Some? <==>
        plan.checkpoint.clean && AllFresh(plan.reports, later) && Current(plan.catalog, later)
  {
    hide BuildDocument, BaseOf, LoaderAccepts, FloorDescribes, Reserved, AllFresh, Current, Settled, InFlight, PlanNow;
    var plan := PlanNow(s, paths, now, inputs, promote).value;
    PlannedFromState(s, paths, now, inputs, promote);
    BaseLater(s, now, later);
    BuildAgain(paths, CatalogOf(s.data), ReservedRevision(s), ReservedRevision(s), now, now, later, inputs, promote);
    BuiltIssued(paths, CatalogOf(s.data), ReservedRevision(s), now, now, inputs, promote);
  }

  lemma BuiltIssued(paths: seq<string>, base: Option<Catalog>, reserved: nat, issued: nat, now: nat, inputs: Inputs, promote: bool)
    requires BuildDocument(paths, base, reserved, issued, now, inputs, promote).Some?
    ensures 0 < issued <= MAX_TIME
  {
    hide WellFormed, AddRelease, AddTransitions, Sort, ReadReports, ReportsOk;
    RevisionBound(BuildDocument(paths, base, reserved, issued, now, inputs, promote).value.1);
  }
}

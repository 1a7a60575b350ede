/**
 The catalog publication protocol (l4release/catalog_publisher.py) and the private trial
 reservations that share its revision counter (l4release/acceptance_pipeline.py,
 l4release/acceptance_trial.py).

 The state is everything durable: the publisher's floor and staged files, the trial
 directories and reservation, and the public registry.  A run is a sequence of single
 durable writes and may stop after any of them.  Bytes are either a catalog document as the
 owner's serializer writes it or something unknown; a signature identifies the bytes it was
 made for, and a digest is represented by what it was computed from (for acceptance
 reports, which are opaque here, by the digest itself).  No one else writes
 the registry paths of the catalog.
 */
module PublicationProtocol {
  import opened StoreBytes
  import opened CatalogModel
  import opened CatalogBuild

  datatype Bytes = Document(catalog: Catalog) | Unknown(id: nat)

  datatype Signature = SignatureOf(bytes: Bytes) | UnknownSignature(id: nat)

  datatype Plan = Plan(
    promote: bool, baseRevision: nat, baseSha: Option<Bytes>, baseSignature: Option<Signature>,
    reports: seq<Report>, catalog: Catalog, checkpoint: Checkpoint)

  datatype Pending = Pending(revision: nat, sha: Bytes, plan: Plan)

  datatype Floor = Floor(revision: nat, sha: Option<Bytes>, time: nat, pending: Option<Pending>)

  datatype TrialPlan = TrialPlan(
    runId: string, source: string, target: string, sourceRoot: Digest, targetRoot: Digest, arch: string, platform: string,
    revision: nat, catalog: Catalog, checkpoint: Checkpoint)

  datatype Reservation = Reservation(revision: nat, catalog: Bytes, plan: TrialPlan)

  datatype State = State(
    floor: Option<Floor>,
    data: Option<Bytes>, signature: Option<Signature>,
    archive: map<nat, Bytes>, archiveSig: map<nat, Signature>,
    evidence: map<Digest, Digest>, evidenceSig: map<Digest, Digest>,
    staged: map<nat, Bytes>, stagedSig: map<nat, Signature>,
    stagedBase: map<nat, Bytes>, stagedBaseSig: map<nat, Signature>,
    trialDirs: set<nat>, trialPlan: map<nat, TrialPlan>, trialPlanSig: set<nat>,
    trialCatalog: map<nat, Bytes>, trialCatalogSig: set<nat>,
    reservation: Option<Reservation>)

  datatype Write =
    | PutEvidence(sha: Digest, content: Digest)
    | PutEvidenceSig(sha: Digest, sig: Digest)
    | PutArchive(revision: nat, bytes: Bytes)
    | PutArchiveSig(revision: nat, signature: Signature)
    | Stage(revision: nat, bytes: Bytes)
    | StageSig(revision: nat, signature: Signature)
    | StageBase(revision: nat, bytes: Bytes)
    | StageBaseSig(revision: nat, signature: Signature)
    | SetFloor(floor: Floor)
    | PutData(bytes: Bytes)
    | PutSignature(signature: Signature)
    | MakeTrial(revision: nat)
    | WriteTrialPlan(revision: nat, plan: TrialPlan)
    | SignTrialPlan(revision: nat)
    | WriteTrialCatalog(revision: nat, bytes: Bytes)
    | SignTrialCatalog(revision: nat)
    | Reserve(reservation: Reservation)

  function Apply(s: State, w: Write): State {
    match w
    case PutEvidence(sha, content) => s.(evidence := s.evidence[sha := content])
    case PutEvidenceSig(sha, sig) => s.(evidenceSig := s.evidenceSig[sha := sig])
    case PutArchive(r, b) => s.(archive := s.archive[r := b])
    case PutArchiveSig(r, g) => s.(archiveSig := s.archiveSig[r := g])
    case Stage(r, b) => s.(staged := s.staged[r := b])
    case StageSig(r, g) => s.(stagedSig := s.stagedSig[r := g])
    case StageBase(r, b) => s.(stagedBase := s.stagedBase[r := b])
    case StageBaseSig(r, g) => s.(stagedBaseSig := s.stagedBaseSig[r := g])
    case SetFloor(f) => s.(floor := Some(f))
    case PutData(b) => s.(data := Some(b))
    case PutSignature(g) => s.(signature := Some(g))
    case MakeTrial(r) => s.(trialDirs := s.trialDirs + {r})
    case WriteTrialPlan(r, p) => s.(trialPlan := s.trialPlan[r := p])
    case SignTrialPlan(r) => s.(trialPlanSig := s.trialPlanSig + {r})
    case WriteTrialCatalog(r, b) => s.(trialCatalog := s.trialCatalog[r := b])
    case SignTrialCatalog(r) => s.(trialCatalogSig := s.trialCatalogSig + {r})
    case Reserve(v) => s.(reservation := Some(v))
  }

  function ApplyAll(s: State, ws: seq<Write>): State
    decreases |ws|
  {
    if ws == [] then s else ApplyAll(Apply(s, ws[0]), ws[1..])
  }

  lemma {:induction false} ApplyAppend(s: State, a: seq<Write>, b: seq<Write>)
    ensures ApplyAll(s, a + b) == ApplyAll(ApplyAll(s, a), b)
    decreases |a|
  {
    hide Apply;
    if a == [] {
      assert a + b == b;
    } else {
      assert (a + b)[1..] == a[1..] + b;
      ApplyAppend(Apply(s, a[0]), a[1..], b);
    }
  }

  // ------------------------------------------------------------------ readers

  const EmptyFloor: Floor := Floor(0, None, 0, None)

  function FloorOf(s: State): Floor {
    if s.floor.None? then EmptyFloor else s.floor.value
  }

  /** The checks of the floor loader. */
  predicate LoaderAccepts(f: Floor) {
    && f.revision < U64_LIMIT && f.time <= MAX_TIME
    && (if f.revision > 0 then f.sha.Some? && f.time > 0 else f.sha.None? && f.time == 0)
    && (f.pending.Some? ==> f.revision < f.pending.value.revision < U64_LIMIT)
  }

  /** Authenticated ancestry: an expired catalog still counts. */
  predicate Authentic(c: Catalog) {
    Valid(c, c.issued)
  }

  /** The catalog of a pair: nothing at all, a catalog, or a refusal. */
  function Authenticate(data: Option<Bytes>, signature: Option<Signature>, now: nat): Option<Option<Catalog>> {
    if data.None? && signature.None? then Some(None)
    else if data.None? || signature.None? then None
    else if signature.value != SignatureOf(data.value) || !data.value.Document? then None
    else
      var c := data.value.catalog;
      if c.issued > now || !Authentic(c) then None else Some(Some(c))
  }

  /** The base of a new plan: refused while a publication is pending. */
  function BaseOf(s: State, now: nat): Option<Option<Catalog>> {
    var f := FloorOf(s);
    if f.pending.Some? then None
    else
      match Authenticate(s.data, s.signature, now)
      case None => None
      case Some(base) =>
        if now < f.time then None
        else
          match base
          case None => if f.revision > 0 then None else Some(None)
          case Some(c) =>
            if c.revision < f.revision || (c.revision == f.revision && s.data != f.sha) then None else Some(Some(c))
  }

  /** reserved_revision: 0 without a reservation, a refusal when its artifacts do not agree. */
  function Reserved(s: State): Option<nat> {
    match s.reservation
    case None => Some(0)
    case Some(v) =>
      var r := v.revision;
      if && 0 < r < U64_LIMIT
         && r in s.trialDirs && r in s.trialPlan && r in s.trialPlanSig && r in s.trialCatalog && r in s.trialCatalogSig
         && s.trialPlan[r] == v.plan && s.trialCatalog[r] == v.catalog
         && v.catalog.Document? && v.plan.catalog == v.catalog.catalog
         && Authentic(v.catalog.catalog) && v.catalog.catalog.revision == r
      then Some(r) else None
  }

  // ------------------------------------------------------------------ publication

  function Paths(reports: seq<Report>): (r: seq<string>)
    ensures |r| == |reports| && forall k :: 0 <= k < |reports| ==> r[k] == reports[k].path
  {
    seq(|reports|, k requires 0 <= k < |reports| => reports[k].path)
  }

  function PlanFor(paths: seq<string>, base: Option<Catalog>, data: Option<Bytes>, signature: Option<Signature>,
                   reserved: nat, issued: nat, now: nat, inputs: Inputs, promote: bool): Option<Plan>
  {
    match BuildDocument(paths, base, reserved, issued, now, inputs, promote)
    case None => None
    case Some((found, document)) =>
      Some(Plan(promote, BaseRevision(base), data, signature, found, document, inputs.checkpoint))
  }

  /** plan: a plan for the reports at these paths, issued now. */
  function PlanNow(s: State, paths: seq<string>, now: nat, inputs: Inputs, promote: bool): Option<Plan> {
    if !LoaderAccepts(FloorOf(s)) then None
    else
      match BaseOf(s, now)
      case None => None
      case Some(base) =>
        match Reserved(s)
        case None => None
        case Some(reserved) => PlanFor(paths, base, s.data, s.signature, reserved, now, now, inputs, promote)
  }

  datatype Pair = Pair(data: Option<Bytes>, signature: Option<Signature>)

  predicate OldOrNew<T(==)>(current: Option<T>, previous: Option<T>, next: T) {
    current == previous || current == Some(next)
  }

  /** The base pair retained next to a pending plan, if it can be read. */
  function RetainedPair(s: State, plan: Plan): Option<Pair> {
    var r := plan.catalog.revision;
    if r !in s.staged || r !in s.stagedSig then None
    else if plan.baseRevision == 0 then Some(Pair(None, None))
    else if r in s.stagedBase && r in s.stagedBaseSig then Some(Pair(Some(s.stagedBase[r]), Some(s.stagedBaseSig[r])))
    else None
  }

  /** The pair and the base a run works from, or a refusal. */
  function Ancestry(s: State, plan: Plan, now: nat): Option<(Pair, Option<Catalog>)> {
    var pending := FloorOf(s).pending;
    if pending.Some? then
      if pending.value.plan != plan || pending.value.revision != plan.catalog.revision then None
      else
        match RetainedPair(s, plan)
        case None => None
        case Some(pair) =>
          match Authenticate(pair.data, pair.signature, now)
          case None => None
          case Some(base) => Some((pair, base))
    else
      match BaseOf(s, now)
      case None => None
      case Some(base) => Some((Pair(s.data, s.signature), base))
  }

  /** Everything a run checks before its first write. */
  function Admit(s: State, plan: Plan, now: nat, inputs: Inputs): Option<Pair> {
    var f := FloorOf(s);
    if plan.reports == [] || !(0 < plan.catalog.issued <= MAX_TIME) || plan.catalog.issued > now then None
    else if !LoaderAccepts(f) || now < f.time then None
    else
      match Ancestry(s, plan, now)
      case None => None
      case Some((pair, base)) =>
        match Reserved(s)
        case None => None
        case Some(reserved) =>
          if PlanFor(Paths(plan.reports), base, pair.data, pair.signature, reserved, plan.catalog.issued, now, inputs, plan.promote) !=
             Some(plan) || !plan.checkpoint.clean then None
          else
            var data := Document(plan.catalog);
            if f.pending.Some? &&
               (f.pending.value.sha != data || !OldOrNew(s.data, pair.data, data) ||
                !OldOrNew(s.signature, pair.signature, SignatureOf(data))) then None
            else Some(pair)
  }

  /** Writes followed by a decision whether the run goes on. */
  datatype Part = Part(writes: seq<Write>, ok: bool)

  function Then(a: Part, b: Part): Part {
    if a.ok then Part(a.writes + b.writes, b.ok) else a
  }

  /** A write-once object: written when absent, accepted when equal, refused otherwise. */
  function Once<T(==)>(present: Option<T>, value: T, w: Write): Part {
    match present
    case None => Part([w], true)
    case Some(x) => Part([], x == value)
  }

  function Lookup<K(==), V>(m: map<K, V>, k: K): Option<V> {
    if k in m then Some(m[k]) else None
  }

  function EvidenceOne(s: State, r: Report): Part {
    Then(Once(Lookup(s.evidence, r.sha), r.sha, PutEvidence(r.sha, r.sha)),
         Once(Lookup(s.evidenceSig, r.sha), r.signature, PutEvidenceSig(r.sha, r.signature)))
  }

  function EvidencePart(s: State, reports: seq<Report>): Part
    decreases |reports|
  {
    if reports == [] then Part([], true)
    else
      var first := EvidenceOne(s, reports[0]);
      Then(first, EvidencePart(ApplyAll(s, first.writes), reports[1..]))
  }

  function ArchivePart(s: State, data: Bytes): Part
    requires data.Document?
  {
    var r := data.catalog.revision;
    Then(Once(Lookup(s.archive, r), data, PutArchive(r, data)),
         Once(Lookup(s.archiveSig, r), SignatureOf(data), PutArchiveSig(r, SignatureOf(data))))
  }

  function StageNew(s: State, plan: Plan): Part {
    var r, data := plan.catalog.revision, Document(plan.catalog);
    Then(Once(Lookup(s.staged, r), data, Stage(r, data)),
         Once(Lookup(s.stagedSig, r), SignatureOf(data), StageSig(r, SignatureOf(data))))
  }

  function StageBaseData(s: State, r: nat, data: Option<Bytes>): Part {
    if data.None? then Part([], true) else Once(Lookup(s.stagedBase, r), data.value, StageBase(r, data.value))
  }

  function StageBaseSignature(s: State, r: nat, signature: Option<Signature>): Part {
    if signature.None? then Part([], true)
    else Once(Lookup(s.stagedBaseSig, r), signature.value, StageBaseSig(r, signature.value))
  }

  function StageOld(s: State, r: nat, pair: Pair): Part {
    Then(StageBaseData(s, r, pair.data), StageBaseSignature(s, r, pair.signature))
  }

  /** The new pair and, where there is one, the base pair are kept next to the floor. */
  function StagePart(s: State, plan: Plan, pair: Pair): Part {
    Then(StageNew(s, plan), StageOld(s, plan.catalog.revision, pair))
  }

  function PendingFloor(plan: Plan, now: nat): Floor {
    Floor(plan.baseRevision, plan.baseSha, if plan.baseRevision > 0 then now else 0,
          Some(Pending(plan.catalog.revision, Document(plan.catalog), plan)))
  }

  function FinalFloor(plan: Plan, now: nat): Floor {
    Floor(plan.catalog.revision, Some(Document(plan.catalog)), now, None)
  }

  /** Both halves that are not new yet, and then the floor. */
  function SwitchPart(s: State, plan: Plan, now: nat): seq<Write> {
    var data := Document(plan.catalog);
    (if s.data == Some(data) then [] else [PutData(data)]) +
    (if s.signature == Some(SignatureOf(data)) then [] else [PutSignature(SignatureOf(data))]) +
    [SetFloor(FinalFloor(plan, now))]
  }

  function AnnouncePart(s: State, plan: Plan, pair: Pair, now: nat): Part {
    if FloorOf(s).pending.Some? then
      var r, data := plan.catalog.revision, Document(plan.catalog);
      Part([], Lookup(s.staged, r) == Some(data) && Lookup(s.stagedSig, r) == Some(SignatureOf(data)))
    else
      Then(StagePart(s, plan, pair), Part([SetFloor(PendingFloor(plan, now))], true))
  }

  /** One uninterrupted publication run. */
  function PublishPart(s: State, plan: Plan, now: nat, inputs: Inputs): Part {
    match Admit(s, plan, now, inputs)
    case None => Part([], false)
    case Some(pair) =>
      Then(EvidencePart(s, plan.reports),
      Then(ArchivePart(s, Document(plan.catalog)),
      Then(AnnouncePart(s, plan, pair, now),
           Part(SwitchPart(s, plan, now), true))))
  }

  function PublishScript(s: State, plan: Plan, now: nat, inputs: Inputs): seq<Write> {
    PublishPart(s, plan, now, inputs).writes
  }

  // ------------------------------------------------------------------ trials

  /** What the trial planner observes besides the registry. */
  datatype TrialFacts = TrialFacts(platform: string, profile: string, evidence: Digest)

  function TrialDocument(p: TrialPlan, revision: nat, issued: nat, inputs: Inputs, facts: TrialFacts): Option<Catalog> {
    if p.source !in inputs.roots || p.target !in inputs.roots || p.source == p.target || !ArchOk(p.arch) then None
    else
      Some(Catalog(revision, issued, issued + DAY, None,
                   [Release(p.source, inputs.roots[p.source], false), Release(p.target, inputs.roots[p.target], false)],
                   [Transition(p.source, p.target, p.arch, facts.profile, facts.evidence)]))
  }

  /** The endpoints and the platform are still the reviewed ones. */
  predicate SameScope(p: TrialPlan, inputs: Inputs, facts: TrialFacts) {
    && p.source in inputs.roots && inputs.roots[p.source] == p.sourceRoot
    && p.target in inputs.roots && inputs.roots[p.target] == p.targetRoot
    && p.source != p.target && ArchOk(p.arch) && p.platform == facts.platform
  }

  /** plan: the next unused revision for a trial issued now. */
  function PlanTrial(s: State, runId: string, source: string, target: string, arch: string, now: nat, inputs: Inputs, facts: TrialFacts):
    Option<TrialPlan>
  {
    if source !in inputs.roots || target !in inputs.roots || source == target || !ArchOk(arch) || !LoaderAccepts(FloorOf(s)) then None
    else
      match BaseOf(s, now)
      case None => None
      case Some(base) =>
        match Reserved(s)
        case None => None
        case Some(reserved) =>
          var r := Max(BaseRevision(base), reserved) + 1;
          var draft := TrialPlan(runId, source, target, inputs.roots[source], inputs.roots[target], arch, facts.platform, r,
                                 Catalog(r, now, now + DAY, None, [], []), inputs.checkpoint);
          Some(draft.(catalog := TrialDocument(draft, r, now, inputs, facts).value))
  }

  /** Whether a reviewed trial may run, and whether it resumes its own reservation. */
  function AdmitTrial(s: State, p: TrialPlan, now: nat, inputs: Inputs, facts: TrialFacts): Option<bool> {
    if !LoaderAccepts(FloorOf(s)) then None
    else
      match BaseOf(s, p.catalog.issued)
      case None => None
      case Some(base) =>
        match Reserved(s)
        case None => None
        case Some(reserved) =>
          if !SameScope(p, inputs, facts) then None
          else if !p.checkpoint.clean || p.checkpoint != inputs.checkpoint || !Valid(p.catalog, now) then None
          else if reserved == p.revision && reserved > 0 then
            (if s.trialPlan[reserved] == p && s.trialCatalog[reserved] == Document(p.catalog) then Some(true) else None)
          else if p.revision != Max(BaseRevision(base), reserved) + 1 ||
                  Some(p.catalog) != TrialDocument(p, p.revision, p.catalog.issued, inputs, facts) ||
                  p.revision in s.trialDirs then None
          else Some(false)
  }

  /** The files of a trial and then its reservation. */
  function TrialPart(s: State, p: TrialPlan, now: nat, inputs: Inputs, facts: TrialFacts): Part {
    match AdmitTrial(s, p, now, inputs, facts)
    case None => Part([], false)
    case Some(resumed) => Part((if resumed then [] else TrialFiles(p)) + [Reserve(ReservationOf(p))], true)
  }

  function TrialScript(s: State, p: TrialPlan, now: nat, inputs: Inputs, facts: TrialFacts): seq<Write> {
    TrialPart(s, p, now, inputs, facts).writes
  }

  function TrialFiles(p: TrialPlan): seq<Write> {
    [MakeTrial(p.revision), WriteTrialPlan(p.revision, p), SignTrialPlan(p.revision),
     WriteTrialCatalog(p.revision, Document(p.catalog)), SignTrialCatalog(p.revision)]
  }

  function ReservationOf(p: TrialPlan): Reservation {
    Reservation(p.revision, Document(p.catalog), p)
  }
}

/**
 Recorded phases of a fresh installation (tools/l4common/bootstrap_history.c).

 A journal is a sequence of typed records.  Replaying the records of one plan gives
 the history of that plan; a record the history does not permit makes the whole
 journal unreadable for that plan.  The four services are numbered in start order:
 proxy, broker, console, supervisor.  A mask of the original is a set of indices.
 */
module BootstrapHistory {
  import opened StoreBytes

  type Index = i: nat | i < 4

  const All: set<Index> := {0, 1, 2, 3}

  function Below(i: Index): set<Index> {
    set k: Index | k in All && k < i
  }

  function Above(i: Index): set<Index> {
    set k: Index | k in All && k > i
  }

  datatype Event =
    | CreateIntent(i: Index)
    | CreateDone(i: Index)
    | DeleteIntent(i: Index)
    | DeleteDone(i: Index)
    | RollbackBegin
    | RollbackDone
    | StartIntent(i: Index)
    | Ready(i: Index)
    | Process(i: Index, pid: U32, birth: U64)
    | StopIntent(i: Index)
    | StopDone(i: Index)
    | CommitBegin
    | TypeIntent(i: Index)
    | TypeDone(i: Index)
    | CommitDone
    | LocalBegin
    | LocalDone
    | CrashIntent(i: Index)
    | CrashDone(i: Index)

  // ------------------------------------------------------------------ records

  datatype Record = Record(kind: nat, data: seq<Byte>)

  datatype Parsed = Foreign | Malformed | Phase(plan: U64, event: Event)

  predicate PhaseKind(kind: nat) {
    41 <= kind <= 55 || kind == 90 || kind == 91 || kind == 96 || kind == 97
  }

  predicate Whole(kind: nat) {
    kind == 90 || kind == 91 || kind == 45 || kind == 46 || kind == 52 || kind == 55
  }

  function PayloadSize(kind: nat): nat {
    if Whole(kind) then 8 else if kind == 49 then 24 else 12
  }

  function EventOf(kind: nat, i: Index, pid: U32, birth: U64): Event
    requires PhaseKind(kind)
  {
    match kind
    case 41 => CreateIntent(i)
    case 42 => CreateDone(i)
    case 43 => DeleteIntent(i)
    case 44 => DeleteDone(i)
    case 45 => RollbackBegin
    case 46 => RollbackDone
    case 47 => StartIntent(i)
    case 48 => Ready(i)
    case 49 => Process(i, pid, birth)
    case 50 => StopIntent(i)
    case 51 => StopDone(i)
    case 52 => CommitBegin
    case 53 => TypeIntent(i)
    case 54 => TypeDone(i)
    case 55 => CommitDone
    case 90 => LocalBegin
    case 91 => LocalDone
    case 96 => CrashIntent(i)
    case _ => CrashDone(i)
  }

  /** The shape checks a record passes before its plan is even compared. */
  function Parse(r: Record): Parsed {
    if !PhaseKind(r.kind) then Foreign
    else if |r.data| != PayloadSize(r.kind) then Malformed
    else
      var plan := Get64(r.data[..8]);
      if plan == 0 then Malformed
      else if Whole(r.kind) then Phase(plan, EventOf(r.kind, 0, 0, 0))
      else
        var index := Get32(r.data[8..12]);
        if index >= 4 then Malformed
        else if r.kind == 49 then
          Phase(plan, Process(index, Get32(r.data[12..16]), Get64(r.data[16..24])))
        else Phase(plan, EventOf(r.kind, index, 0, 0))
  }

  function KindOf(e: Event): nat {
    match e
    case CreateIntent(_) => 41
    case CreateDone(_) => 42
    case DeleteIntent(_) => 43
    case DeleteDone(_) => 44
    case RollbackBegin => 45
    case RollbackDone => 46
    case StartIntent(_) => 47
    case Ready(_) => 48
    case Process(_, _, _) => 49
    case StopIntent(_) => 50
    case StopDone(_) => 51
    case CommitBegin => 52
    case TypeIntent(_) => 53
    case TypeDone(_) => 54
    case CommitDone => 55
    case LocalBegin => 90
    case LocalDone => 91
    case CrashIntent(_) => 96
    case CrashDone(_) => 97
  }

  /** The bytes the drivers write for an event of a plan. */
  function Write(plan: U64, e: Event): (r: Record) {
    var kind := KindOf(e);
    if Whole(kind) then Record(kind, Put64(plan))
    else if e.Process? then Record(kind, Put64(plan) + Put32(e.i) + Put32(e.pid) + Put64(e.birth))
    else Record(kind, Put64(plan) + Put32(e.i))
  }

  /** The kind and the bytes of the records, field by field: registration. */
  lemma RegistrationRecords(plan: U64, i: Index)
    ensures Write(plan, CreateIntent(i)) == Record(41, Put64(plan) + Put32(i))
    ensures Write(plan, CreateDone(i)) == Record(42, Put64(plan) + Put32(i))
    ensures Write(plan, DeleteIntent(i)) == Record(43, Put64(plan) + Put32(i))
    ensures Write(plan, DeleteDone(i)) == Record(44, Put64(plan) + Put32(i))
    ensures Write(plan, CrashIntent(i)) == Record(96, Put64(plan) + Put32(i))
    ensures Write(plan, CrashDone(i)) == Record(97, Put64(plan) + Put32(i))
  {
    hide Put64, Put32;
  }

  /** Activation and stops. */
  lemma ActivationRecords(plan: U64, i: Index, pid: U32, birth: U64)
    ensures Write(plan, StartIntent(i)) == Record(47, Put64(plan) + Put32(i))
    ensures Write(plan, Ready(i)) == Record(48, Put64(plan) + Put32(i))
    ensures Write(plan, Process(i, pid, birth)) == Record(49, Put64(plan) + Put32(i) + Put32(pid) + Put64(birth))
    ensures Write(plan, StopIntent(i)) == Record(50, Put64(plan) + Put32(i))
    ensures Write(plan, StopDone(i)) == Record(51, Put64(plan) + Put32(i))
  {
    hide Put64, Put32;
  }

  /** The records that concern a plan as a whole. */
  lemma WholeRecords(plan: U64)
    ensures Write(plan, RollbackBegin) == Record(45, Put64(plan))
    ensures Write(plan, RollbackDone) == Record(46, Put64(plan))
    ensures Write(plan, CommitBegin) == Record(52, Put64(plan))
    ensures Write(plan, CommitDone) == Record(55, Put64(plan))
    ensures Write(plan, LocalBegin) == Record(90, Put64(plan))
    ensures Write(plan, LocalDone) == Record(91, Put64(plan))
  {
    hide Put64, Put32;
  }

  /** Start types. */
  lemma TypeRecords(plan: U64, i: Index)
    ensures Write(plan, TypeIntent(i)) == Record(53, Put64(plan) + Put32(i))
    ensures Write(plan, TypeDone(i)) == Record(54, Put64(plan) + Put32(i))
  {
    hide Put64, Put32;
  }

  lemma EventOfKind(e: Event, i: Index, pid: U32, birth: U64)
    requires e.RollbackBegin? || e.RollbackDone? || e.CommitBegin? || e.CommitDone? || e.LocalBegin? || e.LocalDone? || e.i == i
    requires e.Process? ==> e.pid == pid && e.birth == birth
    ensures PhaseKind(KindOf(e)) && EventOf(KindOf(e), i, pid, birth) == e
    ensures Whole(KindOf(e)) <==>
              e.RollbackBegin? || e.RollbackDone? || e.CommitBegin? || e.CommitDone? || e.LocalBegin? || e.LocalDone?
    ensures KindOf(e) == 49 <==> e.Process?
  {
  }

  lemma IndexedBytes(plan: U64, i: U32)
    ensures
      var data := Put64(plan) + Put32(i);
      |data| == 12 && data[..8] == Put64(plan) && data[8..12] == Put32(i)
  {
    hide Put64, Put32;
  }

  lemma ProcessBytes(plan: U64, i: U32, pid: U32, birth: U64)
    ensures
      var data := Put64(plan) + Put32(i) + Put32(pid) + Put64(birth);
      && |data| == 24 && data[..8] == Put64(plan) && data[8..12] == Put32(i) && data[12..16] == Put32(pid)
      && data[16..24] == Put64(birth)
  {
    hide Put64, Put32;
  }

  /** What a driver writes is read back by the replay as the same event of the same plan. */
  lemma ParseWrite(plan: U64, e: Event)
    requires plan != 0
    ensures Parse(Write(plan, e)) == Phase(plan, e)
  {
    hide Put64, Put32, Get64, Get32, EventOf, KindOf, Whole, PhaseKind;
    var r := Write(plan, e);
    Get64Put64(plan);
    if e.RollbackBegin? || e.RollbackDone? || e.CommitBegin? || e.CommitDone? || e.LocalBegin? || e.LocalDone? {
      EventOfKind(e, 0, 0, 0);
      assert r.data[..8] == Put64(plan);
    } else if e.Process? {
      EventOfKind(e, e.i, e.pid, e.birth);
      ProcessBytes(plan, e.i, e.pid, e.birth);
      Get32Put32(e.i);
      Get32Put32(e.pid);
      Get64Put64(e.birth);
    } else {
      EventOfKind(e, e.i, 0, 0);
      IndexedBytes(plan, e.i);
      Get32Put32(e.i);
    }
  }

  /** And a record that is read as a phase is exactly what a driver writes for it. */
  lemma WriteParse(r: Record)
    requires Parse(r).Phase?
    ensures Parse(r).plan != 0 && Write(Parse(r).plan, Parse(r).event) == r
  {
    hide Put64, Put32, Get64, Get32;
    var d := r.data;
    var plan := Get64(d[..8]);
    assert Put64(plan) == d[..8];
    if Whole(r.kind) {
      assert d[..8] == d;
    } else {
      var index := Get32(d[8..12]);
      assert Put32(index) == d[8..12];
      if r.kind == 49 {
        assert Put32(Get32(d[12..16])) == d[12..16] && Put64(Get64(d[16..24])) == d[16..24];
        assert d == d[..8] + d[8..12] + d[12..16] + d[16..24];
      } else {
        assert d == d[..8] + d[8..12];
      }
    }
  }

  lemma Get64Put64(v: U64)
    ensures Get64(Put64(v)) == v
  {
    assert Get(Put64(v)) == v;
  }

  lemma Get32Put32(v: U32)
    ensures Get32(Put32(v)) == v
  {
    assert Get(Put32(v)) == v;
  }

  // ------------------------------------------------------------------ history

  datatype Epoch = Epoch(pid: U32, birth: U64)

  type Epochs = s: seq<Epoch> | |s| == 4 witness [Epoch(0, 0), Epoch(0, 0), Epoch(0, 0), Epoch(0, 0)]

  datatype History = History(
    rollback: bool, complete: bool, committing: bool, committed: bool,
    local: bool, localDone: bool, crashIntent: bool, crashDone: bool,
    created: set<Index>, registered: set<Index>, started: set<Index>, ready: set<Index>,
    stopping: set<Index>, stopped: set<Index>, typeIntent: set<Index>, typeDone: set<Index>,
    epochs: Epochs)

  const Empty: History := History(
    false, false, false, false, false, false, false, false,
    {}, {}, {}, {}, {}, {}, {}, {},
    [Epoch(0, 0), Epoch(0, 0), Epoch(0, 0), Epoch(0, 0)])

  predicate Terminal(h: History) {
    h.complete || h.committed || h.localDone
  }

  /** Kinds up to PROCESS, other than the start of a rollback. */
  predicate BeforeCommitOnly(e: Event) {
    e.CreateIntent? || e.CreateDone? || e.DeleteIntent? || e.DeleteDone? || e.RollbackDone? ||
    e.StartIntent? || e.Ready? || e.Process?
  }

  predicate Permitted(h: History, e: Event) {
    && !Terminal(h)
    && !(h.committing && !h.rollback && BeforeCommitOnly(e))
    && match e
       case CrashIntent(i) => i == 3 && !h.rollback && !h.committing && 3 in h.created
       case CrashDone(i) => i == 3 && !h.rollback && !h.committing && h.crashIntent
       case CreateIntent(_) => !h.rollback
       case CreateDone(i) => !h.rollback && i in h.created
       case StartIntent(i) => !h.rollback && h.registered == All && Below(i) <= h.ready
       case Ready(i) => !h.rollback && i in h.started && h.epochs[i].pid != 0
       case Process(i, pid, birth) =>
         i in h.started && pid != 0 && birth != 0 &&
         !(h.rollback && (h.epochs[i].pid != 0 || i in h.stopping))
       case StopIntent(i) => h.rollback && Above(i) <= h.stopped
       case StopDone(i) => h.rollback && i in h.stopping && (i in h.started ==> h.epochs[i].pid != 0)
       case RollbackBegin => true
       case RollbackDone => h.rollback
       case LocalBegin => !h.rollback && !h.committing && h.registered == All && h.started == {} && h.ready == {}
       case LocalDone => !h.rollback && h.local && h.committing && h.typeDone == All
       case CommitBegin => !h.rollback && !h.committing && h.registered == All && h.ready == All
       case TypeIntent(_) => !h.rollback && h.committing
       case TypeDone(i) => !h.rollback && i in h.typeIntent
       case CommitDone => !h.rollback && !h.local && h.committing && h.typeDone == All
       case DeleteIntent(_) => h.rollback
       case DeleteDone(_) => h.rollback
  }

  function Advance(h: History, e: Event): History {
    match e
    case CrashIntent(_) => h.(crashIntent := true)
    case CrashDone(_) => h.(crashDone := true)
    case CreateIntent(i) => h.(created := h.created + {i})
    case CreateDone(i) => h.(registered := h.registered + {i})
    case StartIntent(i) => h.(started := h.started + {i})
    case Ready(i) => h.(ready := h.ready + {i})
    case Process(i, pid, birth) => h.(epochs := h.epochs[i := Epoch(pid, birth)])
    case StopIntent(i) => h.(stopping := h.stopping + {i})
    case StopDone(i) => h.(stopped := h.stopped + {i})
    case RollbackBegin => h.(rollback := true)
    case RollbackDone => h.(complete := true)
    case LocalBegin => h.(committing := true, local := true)
    case LocalDone => h.(localDone := true)
    case CommitBegin => h.(committing := true)
    case TypeIntent(i) => h.(typeIntent := h.typeIntent + {i})
    case TypeDone(i) => h.(typeDone := h.typeDone + {i})
    case CommitDone => h.(committed := true)
    case DeleteIntent(_) => h
    case DeleteDone(_) => h
  }

  function Visit(h: History, plan: U64, r: Record): Option<History> {
    match Parse(r)
    case Foreign => Some(h)
    case Malformed => None
    case Phase(p, e) =>
      if p != plan then Some(h)
      else if Permitted(h, e) then Some(Advance(h, e)) else None
  }

  /** The history of one plan, or nothing when some record is refused. */
  function Replay(journal: seq<Record>, plan: U64): Option<History> {
    if journal == [] then Some(Empty)
    else
      match Replay(journal[..|journal| - 1], plan)
      case None => None
      case Some(h) => Visit(h, plan, journal[|journal| - 1])
  }

  /** Events of one plan applied in order. */
  function Run(h: History, events: seq<Event>): Option<History>
    decreases |events|
  {
    if events == [] then Some(h)
    else if Permitted(h, events[0]) then Run(Advance(h, events[0]), events[1..])
    else None
  }

  function WriteAll(plan: U64, events: seq<Event>): (r: seq<Record>)
    ensures |r| == |events|
    decreases |events|
  {
    if events == [] then [] else [Write(plan, events[0])] + WriteAll(plan, events[1..])
  }

  // ---------------------------------------------------- every accepted journal

  /** What the replay guards alone establish. */
  ghost predicate Accepted(h: History) {
    && h.registered <= h.created
    && (h.started != {} ==> h.registered == All)
    && h.ready <= h.started
    && (forall i: Index :: h.epochs[i].pid != 0 ==> i in h.started)
    && (forall i: Index :: i in h.ready ==> h.epochs[i].pid != 0)
    && (forall i: Index :: h.epochs[i].pid != 0 ==> h.epochs[i].birth != 0)
    && h.typeDone <= h.typeIntent
    && (h.typeIntent != {} ==> h.committing)
    && (h.committing && !h.local ==> h.registered == All && h.ready == All)
    && (h.local ==> h.committing && h.registered == All && h.started == {} && h.ready == {})
    && (h.committed ==> h.committing && !h.local && !h.rollback && h.typeDone == All)
    && (h.localDone ==> h.local && !h.rollback && h.typeDone == All)
    && (h.complete ==> h.rollback)
    && (h.stopping != {} ==> h.rollback)
    && h.stopped <= h.stopping
    && (forall i: Index, k: Index :: i in h.stopping && i < k ==> k in h.stopped)
    && (forall i: Index :: i in h.stopped && i in h.started ==> h.epochs[i].pid != 0)
    && (forall i: Index, k: Index :: i in h.started && k < i ==> k in h.ready)
    && (h.crashDone ==> h.crashIntent) && (h.crashIntent ==> 3 in h.created)
  }

  lemma CreationAccepted(h: History, e: Event)
    requires Accepted(h) && Permitted(h, e)
    requires e.CrashIntent? || e.CrashDone? || e.CreateIntent? || e.CreateDone? || e.DeleteIntent? || e.DeleteDone?
    ensures Accepted(Advance(h, e))
  {
  }

  lemma ActivationAccepted(h: History, e: Event)
    requires Accepted(h) && Permitted(h, e) && (e.StartIntent? || e.Process? || e.Ready?)
    ensures Accepted(Advance(h, e))
  {
  }

  lemma RollbackAccepted(h: History, e: Event)
    requires Accepted(h) && Permitted(h, e) && (e.RollbackBegin? || e.RollbackDone?)
    ensures Accepted(Advance(h, e))
  {
  }

  lemma StopIntentAccepted(h: History, e: Event)
    requires Accepted(h) && Permitted(h, e) && e.StopIntent?
    ensures Accepted(Advance(h, e))
  {
  }

  lemma StopDoneAccepted(h: History, e: Event)
    requires Accepted(h) && Permitted(h, e) && e.StopDone?
    ensures Accepted(Advance(h, e))
  {
  }

  lemma CommitAccepted(h: History, e: Event)
    requires Accepted(h) && Permitted(h, e)
    requires e.LocalBegin? || e.LocalDone? || e.CommitBegin? || e.CommitDone? || e.TypeIntent? || e.TypeDone?
    ensures Accepted(Advance(h, e))
  {
  }

  lemma AcceptedStep(h: History, e: Event)
    requires Accepted(h) && Permitted(h, e)
    ensures Accepted(Advance(h, e))
  {
    hide Accepted, Permitted, Advance;
    if e.StartIntent? || e.Process? || e.Ready? {
      ActivationAccepted(h, e);
    } else if e.RollbackBegin? || e.RollbackDone? {
      RollbackAccepted(h, e);
    } else if e.StopIntent? {
      StopIntentAccepted(h, e);
    } else if e.StopDone? {
      StopDoneAccepted(h, e);
    } else if e.LocalBegin? || e.LocalDone? || e.CommitBegin? || e.CommitDone? || e.TypeIntent? || e.TypeDone? {
      CommitAccepted(h, e);
    } else {
      CreationAccepted(h, e);
    }
  }

  lemma {:induction false} ReplayAccepted(journal: seq<Record>, plan: U64)
    requires Replay(journal, plan).Some?
    ensures Accepted(Replay(journal, plan).value)
  {
    if journal != [] {
      var prefix, last := journal[..|journal| - 1], journal[|journal| - 1];
      ReplayAccepted(prefix, plan);
      var h := Replay(prefix, plan).value;
      var parsed := Parse(last);
      if parsed.Phase? && parsed.plan == plan {
        AcceptedStep(h, parsed.event);
      }
    }
  }

  /**
   Terminal outcomes of every readable journal: they exclude one another, a commit
   rests on four registered, ready and epoch-recorded services with every start type
   confirmed, and a local deployment never started anything.
   */
  lemma TerminalOutcomes(journal: seq<Record>, plan: U64)
    requires Replay(journal, plan).Some?
    ensures
      var h := Replay(journal, plan).value;
      && !(h.committed && h.localDone)
      && !(h.committed && h.complete)
      && !(h.localDone && h.complete)
      && (h.committed ==>
            h.registered == All && h.started == All && h.ready == All && h.typeDone == All &&
            forall i: Index :: h.epochs[i].pid != 0 && h.epochs[i].birth != 0)
      && (h.localDone ==>
            h.registered == All && h.started == {} && h.ready == {} && h.typeDone == All &&
            forall i: Index :: h.epochs[i].pid == 0)
  {
    ReplayAccepted(journal, plan);
  }

  lemma {:induction false} ReplayAppend(journal: seq<Record>, more: seq<Record>, plan: U64)
    ensures Replay(journal + more, plan).Some? ==> Replay(journal, plan).Some?
  {
    if more == [] {
      assert journal + more == journal;
    } else {
      var front := more[..|more| - 1];
      assert (journal + more)[..|journal + more| - 1] == journal + front;
      ReplayAppend(journal, front, plan);
    }
  }

  lemma ReplaySnoc(journal: seq<Record>, r: Record, plan: U64)
    ensures Replay(journal + [r], plan) ==
            match Replay(journal, plan) case None => None case Some(h) => Visit(h, plan, r)
  {
    assert (journal + [r])[..|journal + [r]| - 1] == journal;
  }

  /** Once terminal, one more record of that plan makes the journal unreadable for good. */
  lemma TerminalIsFinal(journal: seq<Record>, plan: U64, r: Record, more: seq<Record>)
    requires Replay(journal, plan).Some? && Terminal(Replay(journal, plan).value)
    requires Parse(r).Phase? && Parse(r).plan == plan
    ensures Replay(journal + [r] + more, plan).None?
  {
    ReplaySnoc(journal, r, plan);
    ReplayAppend(journal + [r], more, plan);
  }

  /** The records of other plans and other kinds that are well formed. */
  predicate OtherRecord(r: Record, plan: U64) {
    var p := Parse(r);
    p.Foreign? || (p.Phase? && p.plan != plan)
  }

  /** The records that carry a phase of this plan. */
  function Own(journal: seq<Record>, plan: U64): seq<Record> {
    if journal == [] then []
    else
      var rest := Own(journal[..|journal| - 1], plan);
      var last := journal[|journal| - 1];
      if OtherRecord(last, plan) then rest else rest + [last]
  }

  lemma VisitOther(h: History, plan: U64, r: Record)
    requires OtherRecord(r, plan)
    ensures Visit(h, plan, r) == Some(h)
  {
  }

  /** A replay depends only on that plan's own records. */
  lemma {:induction false} ReplayReadsOwnRecords(journal: seq<Record>, plan: U64)
    ensures Replay(journal, plan) == Replay(Own(journal, plan), plan)
  {
    if journal != [] {
      var prefix, last := journal[..|journal| - 1], journal[|journal| - 1];
      assert journal == prefix + [last];
      ReplayReadsOwnRecords(prefix, plan);
      ReplaySnoc(prefix, last, plan);
      var rest := Own(prefix, plan);
      if OtherRecord(last, plan) {
        assert Own(journal, plan) == rest;
        if Replay(prefix, plan).Some? {
          VisitOther(Replay(prefix, plan).value, plan, last);
        }
      } else {
        assert Own(journal, plan) == rest + [last];
        ReplaySnoc(rest, last, plan);
      }
    }
  }

  lemma {:induction false} RunAppend(h: History, a: seq<Event>, b: seq<Event>)
    ensures Run(h, a + b) == match Run(h, a) case None => None case Some(m) => Run(m, b)
    decreases |a|
  {
    if a == [] {
      assert a + b == b;
    } else {
      assert (a + b)[1..] == a[1..] + b;
      if Permitted(h, a[0]) {
        RunAppend(Advance(h, a[0]), a[1..], b);
      }
    }
  }

  lemma ReplayOne(journal: seq<Record>, plan: U64, e: Event)
    requires plan != 0
    ensures Replay(journal + [Write(plan, e)], plan) ==
            match Replay(journal, plan) case None => None case Some(h) => Run(h, [e])
  {
    ReplaySnoc(journal, Write(plan, e), plan);
    ParseWrite(plan, e);
  }

  lemma ReplayForeign(journal: seq<Record>, r: Record, plan: U64)
    requires OtherRecord(r, plan)
    ensures Replay(journal + [r], plan) == Replay(journal, plan)
  {
    ReplaySnoc(journal, r, plan);
  }

  /** Replaying what a driver wrote is running its events. */
  lemma {:induction false} ReplayWritten(journal: seq<Record>, plan: U64, events: seq<Event>)
    requires plan != 0
    ensures Replay(journal + WriteAll(plan, events), plan) ==
            match Replay(journal, plan) case None => None case Some(h) => Run(h, events)
    decreases |events|
  {
    hide Write, Replay, Visit, Permitted, Advance;
    if events == [] {
      assert journal + WriteAll(plan, events) == journal;
    } else {
      var next := journal + [Write(plan, events[0])];
      ReplayOne(journal, plan, events[0]);
      assert journal + WriteAll(plan, events) == next + WriteAll(plan, events[1..]);
      ReplayWritten(next, plan, events[1..]);
    }
  }

  lemma WriteIsOther(plan: U64, other: U64, e: Event)
    requires plan != 0 && plan != other
    ensures OtherRecord(Write(plan, e), other)
  {
    ParseWrite(plan, e);
  }

  /** Records of one plan leave the history of every other plan alone. */
  lemma {:induction false} ReplayOtherPlan(journal: seq<Record>, plan: U64, other: U64, events: seq<Event>)
    requires plan != 0 && plan != other
    ensures Replay(journal + WriteAll(plan, events), other) == Replay(journal, other)
    decreases |events|
  {
    hide Write, OtherRecord, Replay, Visit;
    if events == [] {
      assert journal + WriteAll(plan, events) == journal;
    } else {
      var r := Write(plan, events[0]);
      var next := journal + [r];
      WriteIsOther(plan, other, events[0]);
      ReplayForeign(journal, r, other);
      assert journal + WriteAll(plan, events) == next + WriteAll(plan, events[1..]);
      ReplayOtherPlan(next, plan, other, events[1..]);
    }
  }

  /**
   After a rollback or a commit has begun, no later journal changes the process epoch
   recorded for a service.
   */
  lemma {:induction false} EpochsAreFixed(h: History, events: seq<Event>, i: Index)
    requires h.rollback || h.committing
    requires h.epochs[i].pid != 0
    requires Run(h, events).Some?
    ensures Run(h, events).value.epochs[i] == h.epochs[i]
    decreases |events|
  {
    hide Permitted, Advance;
    if events != [] {
      EpochStays(h, events[0], i);
      EpochsAreFixed(Advance(h, events[0]), events[1..], i);
    }
  }

  lemma EpochStays(h: History, e: Event, i: Index)
    requires (h.rollback || h.committing) && h.epochs[i].pid != 0 && Permitted(h, e)
    ensures Advance(h, e).rollback || Advance(h, e).committing
    ensures Advance(h, e).epochs[i] == h.epochs[i]
  {
  }

  /** What neither a rollback nor a commit may change any more. */
  predicate SameInstallation(h: History, g: History) {
    g.created == h.created && g.registered == h.registered && g.started == h.started && g.ready == h.ready &&
    g.crashIntent == h.crashIntent && g.crashDone == h.crashDone
  }

  /** What a rollback leaves as it found it. */
  predicate SameCommit(h: History, g: History) {
    g.committing == h.committing && g.local == h.local && g.typeIntent == h.typeIntent && g.typeDone == h.typeDone &&
    g.committed == h.committed && g.localDone == h.localDone
  }

  lemma FrozenStep(h: History, e: Event)
    requires (h.rollback || h.committing) && Permitted(h, e)
    ensures SameInstallation(h, Advance(h, e)) && (Advance(h, e).rollback || Advance(h, e).committing)
  {
  }

  lemma RollbackStep(h: History, e: Event)
    requires h.rollback && Permitted(h, e)
    ensures Advance(h, e).rollback && SameCommit(h, Advance(h, e))
  {
  }

  /**
   Once a rollback or a commit has begun nothing is created, registered, started or made
   ready any more, and a rollback touches nothing of a commit.
   */
  lemma {:induction false} InstallationIsFrozen(h: History, events: seq<Event>)
    requires (h.rollback || h.committing) && Run(h, events).Some?
    ensures SameInstallation(h, Run(h, events).value)
    ensures h.rollback ==> Run(h, events).value.rollback && SameCommit(h, Run(h, events).value)
    decreases |events|
  {
    hide Permitted, Advance;
    if events != [] {
      FrozenStep(h, events[0]);
      if h.rollback { RollbackStep(h, events[0]); }
      InstallationIsFrozen(Advance(h, events[0]), events[1..]);
    }
  }

  /** Services are stopped and deleted, and a plan ends aborted, only after a rollback has begun. */
  lemma {:induction false} UndoOnlyInRollback(h: History, events: seq<Event>, k: nat)
    requires Run(h, events).Some? && k < |events|
    requires events[k].StopIntent? || events[k].StopDone? || events[k].DeleteIntent? || events[k].DeleteDone? || events[k].RollbackDone?
    ensures Run(h, events[..k]).Some? && Run(h, events[..k]).value.rollback
    decreases k
  {
    if k > 0 {
      UndoOnlyInRollback(Advance(h, events[0]), events[1..], k - 1);
      assert events[..k][1..] == events[1..][..k - 1];
    }
  }

  /** Confirmed stops always cover a top-down suffix of the services. */
  lemma StopsFormASuffix(journal: seq<Record>, plan: U64, i: Index, k: Index)
    requires Replay(journal, plan).Some?
    requires i in Replay(journal, plan).value.stopped && i <= k
    ensures k in Replay(journal, plan).value.stopped
  {
    ReplayAccepted(journal, plan);
  }
}

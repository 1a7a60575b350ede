/**
 The replay as it is written in tools/l4common/bootstrap_history.c: one mutable
 history whose masks, flags and epochs are updated record by record.  Its view is the
 history of module BootstrapHistory.
 */
module BootstrapReplay {
  import opened StoreBytes
  import opened BootstrapHistory

  class PhaseHistory {
    const plan: U64
    var rollback: bool
    var complete: bool
    var committing: bool
    var committed: bool
    var local: bool
    var localDone: bool
    var crashIntent: bool
    var crashDone: bool
    var created: set<Index>
    var registered: set<Index>
    var started: set<Index>
    var ready: set<Index>
    var stopping: set<Index>
    var stopped: set<Index>
    var typeIntent: set<Index>
    var typeDone: set<Index>
    var epochs: Epochs

    function View(): History
      reads this
    {
      History(rollback, complete, committing, committed, local, localDone, crashIntent, crashDone,
              created, registered, started, ready, stopping, stopped, typeIntent, typeDone, epochs)
    }

    constructor (sequence: U64)
      ensures plan == sequence
      ensures View() == Empty
    {
      plan := sequence;
      rollback, complete, committing, committed := false, false, false, false;
      local, localDone, crashIntent, crashDone := false, false, false, false;
      created, registered, started, ready := {}, {}, {}, {};
      stopping, stopped, typeIntent, typeDone := {}, {}, {}, {};
      epochs := [Epoch(0, 0), Epoch(0, 0), Epoch(0, 0), Epoch(0, 0)];
    }

    /** Registration and the supervisor's crash profile. */
    method RegistrationStep(e: Event) returns (ok: bool)
      requires !Terminal(View()) && !(committing && !rollback && BeforeCommitOnly(e))
      requires e.CrashIntent? || e.CrashDone? || e.CreateIntent? || e.CreateDone?
      modifies this
      ensures ok <==> Permitted(old(View()), e)
      ensures View() == if ok then Advance(old(View()), e) else old(View())
    {
      ok := true;
      match e
      case CrashIntent(i) =>
        if i != 3 || rollback || committing || 3 !in created { return false; }
        crashIntent := true;
      case CrashDone(i) =>
        if i != 3 || rollback || committing || !crashIntent { return false; }
        crashDone := true;
      case CreateIntent(i) =>
        if rollback { return false; }
        created := created + {i};
      case CreateDone(i) =>
        if rollback || i !in created { return false; }
        registered := registered + {i};
    }

    /** Start, observed process and readiness. */
    method ActivationStep(e: Event) returns (ok: bool)
      requires !Terminal(View()) && !(committing && !rollback && BeforeCommitOnly(e))
      requires e.StartIntent? || e.Ready? || e.Process?
      modifies this
      ensures ok <==> Permitted(old(View()), e)
      ensures View() == if ok then Advance(old(View()), e) else old(View())
    {
      ok := true;
      match e
      case StartIntent(i) =>
        if rollback || registered != All || !(Below(i) <= ready) { return false; }
        started := started + {i};
      case Ready(i) =>
        if rollback || i !in started || epochs[i].pid == 0 { return false; }
        ready := ready + {i};
      case Process(i, pid, birth) =>
        if i !in started || pid == 0 || birth == 0 ||
           (rollback && (epochs[i].pid != 0 || i in stopping)) { return false; }
        epochs := epochs[i := Epoch(pid, birth)];
    }

    /** A managed stop. */
    method StopStep(e: Event) returns (ok: bool)
      requires !Terminal(View()) && !(committing && !rollback && BeforeCommitOnly(e))
      requires e.StopIntent? || e.StopDone?
      modifies this
      ensures ok <==> Permitted(old(View()), e)
      ensures View() == if ok then Advance(old(View()), e) else old(View())
    {
      ok := true;
      match e
      case StopIntent(i) =>
        if !rollback || !(Above(i) <= stopped) { return false; }
        stopping := stopping + {i};
      case StopDone(i) =>
        if !rollback || i !in stopping || (i in started && epochs[i].pid == 0) { return false; }
        stopped := stopped + {i};
    }

    /** Deletion and the two ends of a rollback. */
    method RollbackStep(e: Event) returns (ok: bool)
      requires !Terminal(View()) && !(committing && !rollback && BeforeCommitOnly(e))
      requires e.RollbackBegin? || e.RollbackDone? || e.DeleteIntent? || e.DeleteDone?
      modifies this
      ensures ok <==> Permitted(old(View()), e)
      ensures View() == if ok then Advance(old(View()), e) else old(View())
    {
      ok := true;
      match e
      case RollbackBegin =>
        rollback := true;
      case RollbackDone =>
        if !rollback { return false; }
        complete := true;
      case DeleteIntent(_) =>
        if !rollback { return false; }
      case DeleteDone(_) =>
        if !rollback { return false; }
    }

    /** The start types selected during a commit. */
    method TypeStep(e: Event) returns (ok: bool)
      requires !Terminal(View()) && !(committing && !rollback && BeforeCommitOnly(e))
      requires e.TypeIntent? || e.TypeDone?
      modifies this
      ensures ok <==> Permitted(old(View()), e)
      ensures View() == if ok then Advance(old(View()), e) else old(View())
    {
      ok := true;
      match e
      case TypeIntent(i) =>
        if rollback || !committing { return false; }
        typeIntent := typeIntent + {i};
      case TypeDone(i) =>
        if rollback || i !in typeIntent { return false; }
        typeDone := typeDone + {i};
    }

    /** Both ways of committing an installation. */
    method CommitStep(e: Event) returns (ok: bool)
      requires !Terminal(View()) && !(committing && !rollback && BeforeCommitOnly(e))
      requires e.LocalBegin? || e.LocalDone? || e.CommitBegin? || e.CommitDone?
      modifies this
      ensures ok <==> Permitted(old(View()), e)
      ensures View() == if ok then Advance(old(View()), e) else old(View())
    {
      ok := true;
      match e
      case LocalBegin =>
        if rollback || committing || registered != All || started != {} || ready != {} { return false; }
        committing, local := true, true;
      case LocalDone =>
        if rollback || !local || !committing || typeDone != All { return false; }
        localDone := true;
      case CommitBegin =>
        if rollback || committing || registered != All || ready != All { return false; }
        committing := true;
      case CommitDone =>
        if rollback || local || !committing || typeDone != All { return false; }
        committed := true;
    }

    /** One phase of this plan: nothing after a terminal record, no early phase inside a commit. */
    method Step(e: Event) returns (ok: bool)
      modifies this
      ensures ok <==> Permitted(old(View()), e)
      ensures View() == if ok then Advance(old(View()), e) else old(View())
    {
      if complete || committed || localDone {
        return false;
      }
      if committing && KindOf(e) <= 49 && !rollback && KindOf(e) != 45 {
        return false;
      }
      if e.CrashIntent? || e.CrashDone? || e.CreateIntent? || e.CreateDone? {
        ok := RegistrationStep(e);
      } else if e.StartIntent? || e.Ready? || e.Process? {
        ok := ActivationStep(e);
      } else if e.StopIntent? || e.StopDone? {
        ok := StopStep(e);
      } else if e.RollbackBegin? || e.RollbackDone? || e.DeleteIntent? || e.DeleteDone? {
        ok := RollbackStep(e);
      } else if e.TypeIntent? || e.TypeDone? {
        ok := TypeStep(e);
      } else {
        ok := CommitStep(e);
      }
    }

    /** One record of the journal, well formed or not, of this plan or not. */
    method PhaseRecord(r: Record) returns (ok: bool)
      modifies this
      ensures ok <==> Visit(old(View()), plan, r).Some?
      ensures ok ==> View() == Visit(old(View()), plan, r).value
    {
      var parsed := Parse(r);
      match parsed
      case Foreign => ok := true;
      case Malformed => ok := false;
      case Phase(p, e) =>
        if p != plan {
          ok := true;
        } else {
          ok := Step(e);
        }
    }
  }

  /** Reads the recorded history of one plan out of a journal. */
  method ReadHistory(journal: seq<Record>, sequence: U64) returns (ok: bool, h: History)
    ensures ok <==> sequence != 0 && Replay(journal, sequence).Some?
    ensures ok ==> h == Replay(journal, sequence).value
  {
    h := Empty;
    if sequence == 0 {
      return false, h;
    }
    var p := new PhaseHistory(sequence);
    for n := 0 to |journal|
      invariant fresh(p) && p.plan == sequence
      invariant Replay(journal[..n], sequence) == Some(p.View())
    {
      var prefix := journal[..n];
      assert journal[..n + 1] == prefix + [journal[n]];
      ReplaySnoc(prefix, journal[n], sequence);
      var good := p.PhaseRecord(journal[n]);
      if !good {
        ReplayAppend(journal[..n + 1], journal[n + 1..], sequence);
        assert journal[..n + 1] + journal[n + 1..] == journal;
        return false, h;
      }
    }
    assert journal[..|journal|] == journal;
    return true, p.View();
  }
}

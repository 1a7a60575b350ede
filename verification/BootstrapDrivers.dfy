/**
 The drivers of tools/l4common/bootstrap_services.c over a growing journal.

 The service manager, the file fences, the probes and the clock answer arbitrarily: a
 check that may refuse is a nondeterministic branch, an observation the driver acts on is
 a parameter.  Every append may fail, or may be the last thing the process ever does.
 */
module BootstrapDrivers {
  import opened StoreBytes
  import opened Interruption
  import opened BootstrapHistory
  import opened BootstrapReplay
  import opened BootstrapScripts

  datatype Outcome = Done | Refused | Crashed

  const UPDATE_STATE_INTENT: nat := 65

  lemma {:induction false} WriteAllAppend(plan: U64, a: seq<Event>, b: seq<Event>)
    ensures WriteAll(plan, a + b) == WriteAll(plan, a) + WriteAll(plan, b)
    decreases |a|
  {
    hide Write;
    if a == [] {
      assert a + b == b;
    } else {
      assert (a + b)[1..] == a[1..] + b;
      WriteAllAppend(plan, a[1..], b);
    }
  }

  lemma WriteNothing(journal: seq<Record>, plan: U64)
    ensures journal + WriteAll(plan, []) == journal
  {
  }

  lemma WriteOne(plan: U64, e: Event)
    ensures WriteAll(plan, [e]) == [Write(plan, e)]
  {
    hide Write;
    assert [e][1..] == [];
  }

  lemma {:induction false} CreatesPrefix(n: nat, crashDone: bool)
    requires n <= 4
    ensures Creates(n, crashDone) <= Creates(4, crashDone)
    decreases 4 - n
  {
    hide CreateOne;
    if n < 4 {
      CreatesPrefix(n + 1, crashDone);
    }
  }

  lemma CreatesNext(n: nat, crashDone: bool)
    requires n < 4
    ensures Creates(n + 1, crashDone) == Creates(n, crashDone) + CreateOne(n, crashDone)
    ensures Creates(0, crashDone) == []
  {
  }

  lemma StartsNext(n: nat, epochs: LiveEpochs)
    requires n < 4
    ensures Starts(n + 1, epochs) == Starts(n, epochs) + StartOne(n, epochs[n])
    ensures Starts(0, epochs) == []
  {
  }

  lemma {:induction false} StartsPrefix(n: nat, epochs: LiveEpochs)
    requires n <= 4
    ensures Starts(n, epochs) <= Starts(4, epochs)
    decreases 4 - n
  {
    hide StartOne;
    if n < 4 {
      StartsPrefix(n + 1, epochs);
    }
  }

  lemma {:induction false} TypesPrefix(n: nat)
    requires n <= 4
    ensures Types(n) <= Types(4)
    decreases 4 - n
  {
    if n < 4 {
      TypesPrefix(n + 1);
    }
  }

  /** Registration of the services before the supervisor leaves its crash profile alone. */
  lemma {:induction false} CreatesKeepCrash(h: History, n: nat)
    requires n <= 3
    ensures Run(h, Creates(n, h.crashDone)).Some? ==> Run(h, Creates(n, h.crashDone)).value.crashDone == h.crashDone
  {
    if n > 0 {
      CreatesKeepCrash(h, n - 1);
      RunAppend(h, Creates(n - 1, h.crashDone), CreateOne(n - 1, h.crashDone));
      var r := Run(h, Creates(n - 1, h.crashDone));
      if r.Some? {
        var i: Index := n - 1;
        assert CreateOne(i, h.crashDone) == [CreateIntent(i)] + [CreateDone(i)];
        RunAppend(r.value, [CreateIntent(i)], [CreateDone(i)]);
        RunOne(r.value, CreateIntent(i));
        RunOne(Advance(r.value, CreateIntent(i)), CreateDone(i));
      }
    }
  }

  /** What a driver kept of its script is one step of a session. */
  lemma KeptPrefix(journal: seq<Record>, plan: U64, c: Call, wrote: seq<Event>)
    requires plan != 0 && Replay(journal, plan).Some?
    requires wrote <= Script(c, Replay(journal, plan).value)
    ensures Perform(journal, Invoke(plan, c, |wrote|)) == journal + WriteAll(plan, wrote)
  {
    hide Script, Replay, Write;
    assert Cut(Script(c, Replay(journal, plan).value), |wrote|) == wrote;
  }

  lemma NothingKept(journal: seq<Record>, plan: U64, c: Call)
    ensures Perform(journal, Invoke(plan, c, 0)) == journal
  {
    hide Script, Replay, Write;
    if plan != 0 && Replay(journal, plan).Some? {
      KeptPrefix(journal, plan, c, []);
      assert journal + WriteAll(plan, []) == journal;
    }
  }

  predicate Reached(journal: seq<Record>, plan: U64) {
    plan != 0 && Replay(journal, plan).Some?
  }

  function HistoryOf(journal: seq<Record>, plan: U64): History
    requires Reached(journal, plan)
  {
    Replay(journal, plan).value
  }

  lemma StillReached(journal: seq<Record>, plan: U64, c: Call, kept: nat)
    requires Readable(journal) && plan != 0
    ensures Reached(Perform(journal, Invoke(plan, c, kept)), plan)
  {
    hide Replay, Perform;
    PerformReadable(journal, Invoke(plan, c, kept));
  }

  lemma LastIsDone(journal: seq<Record>, plan: U64)
    ensures Reached(journal + WriteAll(plan, [RollbackDone]), plan) ==>
              HistoryOf(journal + WriteAll(plan, [RollbackDone]), plan).complete
  {
    hide Replay, WriteAll, Run;
    if plan != 0 {
      ReplayWritten(journal, plan, [RollbackDone]);
      if Replay(journal, plan).Some? {
        RunOne(Replay(journal, plan).value, RollbackDone);
      }
    }
  }

  lemma ProvisionReadable(journal: seq<Record>, provisioned: seq<Step>)
    requires Readable(journal)
    requires provisioned == [] || (|provisioned| == 1 && provisioned[0].Other?)
    ensures Readable(Continue(journal, provisioned))
  {
    hide Readable, Perform;
    if provisioned != [] {
      PerformReadable(journal, provisioned[0]);
      assert provisioned[..0] == [];
      assert Continue(journal, provisioned[..0]) == journal;
    }
  }

  /** The whole script of a sound history, replayed. */
  lemma FullScript(journal: seq<Record>, plan: U64, events: seq<Event>)
    requires Readable(journal) && plan != 0
    requires Safe(Replay(journal, plan).value, events)
    ensures Reached(journal + WriteAll(plan, events), plan)
    ensures HistoryOf(journal + WriteAll(plan, events), plan) == After(Replay(journal, plan).value, events)
  {
    hide Replay, WriteAll, Run, Sound, Safe;
    SafeRuns(Replay(journal, plan).value, events);
    ReplayWritten(journal, plan, events);
  }

  lemma FullRegister(journal: seq<Record>, plan: U64)
    requires Readable(journal) && plan != 0
    requires var h := Replay(journal, plan).value; !h.rollback && !h.committing
    ensures
      var after := journal + WriteAll(plan, Creates(4, Replay(journal, plan).value.crashDone));
      Reached(after, plan) && HistoryOf(after, plan).registered == All
  {
    hide Replay, WriteAll, Run, Sound, Safe, Creates, After;
    var h := Replay(journal, plan).value;
    CreatesSafe(h, 4);
    FullScript(journal, plan, Creates(4, h.crashDone));
    assert After(h, Creates(4, h.crashDone)).registered == All;
  }

  lemma FullActivate(journal: seq<Record>, plan: U64, epochs: LiveEpochs)
    requires Readable(journal) && plan != 0
    requires var h := Replay(journal, plan).value; !h.rollback && !h.committing && h.registered == All
    ensures
      var after := journal + WriteAll(plan, Starts(4, epochs));
      Reached(after, plan) && HistoryOf(after, plan).ready == All && HistoryOf(after, plan).epochs == epochs
  {
    hide Replay, WriteAll, Run, Sound, Safe, Starts, After;
    var h := Replay(journal, plan).value;
    StartsSafe(h, epochs, 4);
    FullScript(journal, plan, Starts(4, epochs));
    var g := After(h, Starts(4, epochs));
    assert g.ready == All;
    assert g.epochs == epochs;
  }

  lemma FullCommit(journal: seq<Record>, plan: U64)
    requires Readable(journal) && plan != 0
    requires
      var h := Replay(journal, plan).value;
      !h.rollback && !h.local && !h.committed && !h.complete && h.ready == All && h.registered == All
    ensures
      var h := Replay(journal, plan).value;
      var after := journal + WriteAll(plan, (if h.committing then [] else [CommitBegin]) + Types(4) + [CommitDone]);
      Reached(after, plan) && HistoryOf(after, plan).committed
  {
    hide Replay, WriteAll, Run, Safe, Types, After;
    var h := Replay(journal, plan).value;
    var begin := if h.committing then [] else [CommitBegin];
    CommitScriptSafe(h, begin, CommitDone);
    FullScript(journal, plan, begin + Types(4) + [CommitDone]);
  }

  lemma FullLocalCommit(journal: seq<Record>, plan: U64)
    requires Readable(journal) && plan != 0
    requires
      var h := Replay(journal, plan).value;
      !h.rollback && !Terminal(h) && !(h.committing && !h.local) && h.started == {} && h.ready == {} &&
      h.registered == All
    ensures
      var h := Replay(journal, plan).value;
      var after := journal + WriteAll(plan, (if h.local then [] else [LocalBegin]) + Types(4) + [LocalDone]);
      Reached(after, plan) && HistoryOf(after, plan).localDone
  {
    hide Replay, WriteAll, Run, Safe, Types, After;
    var h := Replay(journal, plan).value;
    var begin := if h.local then [] else [LocalBegin];
    CommitScriptSafe(h, begin, LocalDone);
    FullScript(journal, plan, begin + Types(4) + [LocalDone]);
  }

  class Journal {
    var records: seq<Record>

    /** One durable record; after it, the process may be gone. */
    method Append(plan: U64, e: Event) returns (o: Outcome, ghost wrote: seq<Event>)
      modifies this
      ensures records == old(records) + WriteAll(plan, wrote)
      ensures wrote <= [e]
      ensures o.Done? ==> wrote == [e]
    {
      WriteOne(plan, e);
      if * {
        return Refused, [];
      }
      if * {
        return Crashed, [];
      }
      records := records + [Write(plan, e)];
      wrote := [e];
      if * {
        return Crashed, wrote;
      }
      return Done, wrote;
    }

    /** Creates or adopts one service and records it; the supervisor also gets its crash profile. */
    method CreateService(plan: U64, i: Index, ghost crashDone: bool) returns (o: Outcome, ghost wrote: seq<Event>)
      requires plan != 0
      requires Replay(records, plan).Some? ==> Replay(records, plan).value.crashDone == crashDone
      modifies this
      ensures records == old(records) + WriteAll(plan, wrote)
      ensures wrote <= CreateOne(i, crashDone)
      ensures o.Done? ==> wrote == CreateOne(i, crashDone)
    {
      hide WriteAll, Write, Replay;
      ghost var more: seq<Event>;
      wrote := [];
      if * { return Refused, wrote; }  // the image could not be pinned
      o, more := Append(plan, CreateIntent(i));
      wrote := more;
      if !o.Done? { return; }
      if * { return Refused, wrote; }  // a foreign or running service of that name
      if i == 3 {
        var ok, observed := ReadHistory(records, plan);
        ReplayWritten(old(records), plan, wrote);
        if !ok { return Refused, wrote; }
        assert observed.crashDone == crashDone;
        if !observed.crashDone {
          o, more := Append(plan, CrashIntent(i));
          WriteAllAppend(plan, wrote, more);
          wrote := wrote + more;
          if !o.Done? { return; }
          if * { return Refused, wrote; }  // the profile was not written or did not read back
          o, more := Append(plan, CrashDone(i));
          WriteAllAppend(plan, wrote, more);
          wrote := wrote + more;
          if !o.Done? { return; }
        } else if * {
          return Refused, wrote;
        }
      }
      o, more := Append(plan, CreateDone(i));
      WriteAllAppend(plan, wrote, more);
      wrote := wrote + more;
    }

    /** The four services in start order. */
    method CreateServices(plan: U64, ghost current: History) returns (o: Outcome, ghost wrote: seq<Event>)
      requires plan != 0 && Replay(records, plan) == Some(current)
      modifies this
      ensures records == old(records) + WriteAll(plan, wrote)
      ensures wrote <= Creates(4, current.crashDone)
      ensures o.Done? ==> wrote == Creates(4, current.crashDone)
    {
      hide WriteAll, Write, Replay, Run, CreateOne, Creates;
      ghost var cd := current.crashDone;
      o, wrote := Done, [];
      WriteNothing(records, plan);
      CreatesNext(0, cd);
      for i := 0 to 4
        invariant records == old(records) + WriteAll(plan, wrote)
        invariant wrote == Creates(i, cd)
      {
        ReplayWritten(old(records), plan, wrote);
        CreatesKeepCrash(current, i);
        CreatesPrefix(i, cd);
        CreatesPrefix(i + 1, cd);
        CreatesNext(i, cd);
        ghost var more: seq<Event>;
        o, more := CreateService(plan, i, cd);
        WriteAllAppend(plan, wrote, more);
        wrote := wrote + more;
        if !o.Done? { return; }
      }
    }

    /** Provision of the shared update state: at most one record of another kind. */
    method ProvisionState() returns (o: Outcome, ghost provisioned: seq<Step>)
      modifies this
      ensures provisioned == [] || (|provisioned| == 1 && provisioned[0].Other?)
      ensures records == Continue(old(records), provisioned)
      ensures forall plan: U64 :: Replay(records, plan) == Replay(old(records), plan)
    {
      hide Replay;
      provisioned := [];
      if * { return Refused, provisioned; }
      if * { return Done, provisioned; }
      var state: seq<Byte> := *;
      var r := Record(UPDATE_STATE_INTENT, state);
      provisioned := [Other(r)];
      assert provisioned[..0] == [];
      forall plan: U64 ensures Replay(records + [r], plan) == Replay(records, plan) {
        ReplayForeign(records, r, plan);
      }
      records := records + [r];
      if * { return Crashed, provisioned; }
      return Done, provisioned;
    }

    /** l4_bootstrap_register */
    method RegisterServices(plan: U64) returns (o: Outcome, ghost kept: nat, ghost provisioned: seq<Step>)
      modifies this
      ensures provisioned == [] || (|provisioned| == 1 && provisioned[0].Other?)
      ensures records == Perform(Continue(old(records), provisioned), Invoke(plan, Register, kept))
      ensures o.Done? && Readable(old(records)) ==> Reached(records, plan) && HistoryOf(records, plan).registered == All
    {
      hide WriteAll, Write, Replay, Script, Creates, Perform, Readable;
      kept, provisioned := 0, [];
      NothingKept(records, plan, Register);
      var ok, current := ReadHistory(records, plan);
      if !ok { return Refused, kept, provisioned; }
      if current.rollback || current.committing { return Refused, kept, provisioned; }
      o, provisioned := ProvisionState();
      NothingKept(records, plan, Register);
      if !o.Done? { return; }
      RegisterScript(current);
      ghost var base, wrote := records, [];
      o, wrote := CreateServices(plan, current);
      KeptPrefix(base, plan, Register, wrote);
      if o.Done? && Readable(old(records)) {
        ProvisionReadable(old(records), provisioned);
        FullRegister(base, plan);
      }
      kept := |wrote|;
    }

    /** Start in order; each service is observed, probed and recorded as ready before the next. */
    method StartServices(plan: U64, epochs: LiveEpochs) returns (o: Outcome, ghost wrote: seq<Event>)
      modifies this
      ensures records == old(records) + WriteAll(plan, wrote)
      ensures wrote <= Starts(4, epochs)
      ensures o.Done? ==> wrote == Starts(4, epochs)
    {
      hide WriteAll, Write, StartOne, Starts;
      o, wrote := Done, [];
      WriteNothing(records, plan);
      StartsNext(0, epochs);
      for i := 0 to 4
        invariant records == old(records) + WriteAll(plan, wrote)
        invariant wrote == Starts(i, epochs)
      {
        StartsPrefix(i, epochs);
        StartsPrefix(i + 1, epochs);
        StartsNext(i, epochs);
        if * { return Refused, wrote; }  // the bundle is no longer live, or the barrier failed
        ghost var more: seq<Event>;
        o, more := ActivateOne(plan, i, epochs[i]);
        WriteAllAppend(plan, wrote, more);
        wrote := wrote + more;
        if !o.Done? { return; }
      }
    }

    /** l4_bootstrap_activate */
    method ActivateServices(plan: U64, epochs: LiveEpochs) returns (o: Outcome, ghost kept: nat)
      modifies this
      ensures records == Perform(old(records), Invoke(plan, Activate(epochs), kept))
      ensures o.Done? && Readable(old(records)) ==>
                Reached(records, plan) && HistoryOf(records, plan).ready == All && HistoryOf(records, plan).epochs == epochs
    {
      hide WriteAll, Write, Replay, Script, Starts, Perform, Readable;
      kept := 0;
      ghost var c := Activate(epochs);
      NothingKept(records, plan, c);
      var ok, current := ReadHistory(records, plan);
      if !ok { return Refused, kept; }
      if current.rollback || current.committing { return Refused, kept; }
      if current.registered != All { return Refused, kept; }
      if * { return Refused, kept; }  // the whole bundle is validated before the first start
      ActivateScript(current, epochs);
      ghost var base, wrote := records, [];
      o, wrote := StartServices(plan, epochs);
      KeptPrefix(base, plan, c, wrote);
      kept := |wrote|;
      if o.Done? { if * { o := Refused; } }  // the final barrier
      if o.Done? && Readable(base) { FullActivate(base, plan, epochs); }
    }

    method ActivateOne(plan: U64, i: Index, e: LiveEpoch) returns (o: Outcome, ghost wrote: seq<Event>)
      modifies this
      ensures records == old(records) + WriteAll(plan, wrote)
      ensures wrote <= StartOne(i, e)
      ensures o.Done? ==> wrote == StartOne(i, e)
    {
      hide WriteAll, Write;
      ghost var more: seq<Event>;
      o, wrote := Append(plan, StartIntent(i));
      if !o.Done? { return; }
      if * { return Refused, wrote; }  // the service did not reach RUNNING in time
      o, more := Append(plan, Process(i, e.pid, e.birth));
      WriteAllAppend(plan, wrote, more);
      wrote := wrote + more;
      if !o.Done? { return; }
      if * { return Refused, wrote; }  // the fresh probe failed
      o, more := Append(plan, Ready(i));
      WriteAllAppend(plan, wrote, more);
      wrote := wrote + more;
    }

    method SelectType(plan: U64, i: Index) returns (o: Outcome, ghost wrote: seq<Event>)
      modifies this
      ensures records == old(records) + WriteAll(plan, wrote)
      ensures wrote <= [TypeIntent(i), TypeDone(i)]
      ensures o.Done? ==> wrote == [TypeIntent(i), TypeDone(i)]
    {
      hide WriteAll, Write;
      wrote := [];
      ghost var more: seq<Event>;
      if * { return Refused, wrote; }  // another epoch, another configuration or an expired budget
      o, wrote := Append(plan, TypeIntent(i));
      if !o.Done? { return; }
      if * { return Refused, wrote; }  // the type was not selected or did not read back
      o, more := Append(plan, TypeDone(i));
      WriteAllAppend(plan, wrote, more);
      wrote := wrote + more;
    }

    method SelectTypes(plan: U64) returns (o: Outcome, ghost wrote: seq<Event>)
      modifies this
      ensures records == old(records) + WriteAll(plan, wrote)
      ensures wrote <= Types(4)
      ensures o.Done? ==> wrote == Types(4)
    {
      hide WriteAll, Write;
      o, wrote := Done, [];
      WriteNothing(records, plan);
      for i := 0 to 4
        invariant records == old(records) + WriteAll(plan, wrote)
        invariant wrote == Types(i)
      {
        TypesPrefix(i + 1);
        ghost var more: seq<Event>;
        o, more := SelectType(plan, i);
        WriteAllAppend(plan, wrote, more);
        wrote := wrote + more;
        if !o.Done? { return; }
      }
    }

    /** Begin unless already begun, select the start types, recheck, end. */
    method CommitPhases(plan: U64, begun: bool, begin: Event, end: Event) returns (o: Outcome, ghost wrote: seq<Event>)
      modifies this
      ensures records == old(records) + WriteAll(plan, wrote)
      ensures wrote <= (if begun then [] else [begin]) + Types(4) + [end]
      ensures o.Done? ==> wrote == (if begun then [] else [begin]) + Types(4) + [end]
    {
      hide WriteAll, Write, Types;
      wrote := [];
      WriteNothing(records, plan);
      ghost var more: seq<Event>;
      if * { return Refused, wrote; }  // fresh health before anything is recorded
      if !begun {
        o, wrote := Append(plan, begin);
        if !o.Done? { return; }
      }
      o, more := SelectTypes(plan);
      WriteAllAppend(plan, wrote, more);
      wrote := wrote + more;
      if !o.Done? { return; }
      if * { return Refused, wrote; }  // fresh health again
      o, more := Append(plan, end);
      WriteAllAppend(plan, wrote, more);
      wrote := wrote + more;
    }

    /** l4_bootstrap_commit */
    method CommitServices(plan: U64) returns (o: Outcome, ghost kept: nat)
      modifies this
      ensures records == Perform(old(records), Invoke(plan, Commit, kept))
      ensures o.Done? && Readable(old(records)) ==> Reached(records, plan) && HistoryOf(records, plan).committed
    {
      hide WriteAll, Write, Replay, Script, Types, Perform, Readable;
      kept := 0;
      NothingKept(records, plan, Commit);
      var ok, current := ReadHistory(records, plan);
      if !ok { return Refused, kept; }
      if current.rollback || current.complete { return Refused, kept; }
      if current.local || current.ready != All || current.registered != All { return Refused, kept; }
      if current.committed {
        if * { return Refused, kept; }
        return Done, kept;
      }
      ghost var base, wrote := records, [];
      o, wrote := CommitPhases(plan, current.committing, CommitBegin, CommitDone);
      CommitScripts(current);
      KeptPrefix(base, plan, Commit, wrote);
      if o.Done? && Readable(base) { FullCommit(base, plan); }
      kept := |wrote|;
    }

    /** l4_bootstrap_local_commit */
    method LocalCommitServices(plan: U64) returns (o: Outcome, ghost kept: nat)
      modifies this
      ensures records == Perform(old(records), Invoke(plan, LocalCommit, kept))
      ensures o.Done? && Readable(old(records)) ==> Reached(records, plan) && HistoryOf(records, plan).localDone
    {
      hide WriteAll, Write, Replay, Script, Types, Perform, Readable;
      kept := 0;
      NothingKept(records, plan, LocalCommit);
      var ok, p := ReadHistory(records, plan);
      if !ok { return Refused, kept; }
      if p.rollback || p.complete || p.committed || p.localDone || (p.committing && !p.local) ||
         p.started != {} || p.ready != {} || p.registered != All { return Refused, kept; }
      ghost var base, wrote := records, [];
      o, wrote := CommitPhases(plan, p.local, LocalBegin, LocalDone);
      CommitScripts(p);
      KeptPrefix(base, plan, LocalCommit, wrote);
      if o.Done? && Readable(base) { FullLocalCommit(base, plan); }
      kept := |wrote|;
    }

    /** delete_one: only an inspected, stopped, owned service is deleted; absence is confirmed. */
    method DeleteService(plan: U64, i: Index) returns (o: Outcome, ghost d: Deletion, ghost wrote: seq<Event>)
      modifies this
      ensures records == old(records) + WriteAll(plan, wrote)
      ensures wrote <= DeletionEvents(i, d)
      ensures !o.Crashed? ==> wrote == DeletionEvents(i, d)
      ensures o.Done? ==> DeletedOrAbsent(d)
    {
      hide WriteAll, Write;
      wrote := [];
      WriteNothing(records, plan);
      ghost var more: seq<Event>;
      if * { return Refused, Untouched, wrote; }  // expired budget, foreign or running service
      if * {
        o, wrote := Append(plan, DeleteDone(i));   // the service does not exist
        d := if wrote == [] then Untouched else Absent;
        return;
      }
      o, wrote := Append(plan, DeleteIntent(i));
      d := if wrote == [] then Untouched else Attempted;
      if !o.Done? { return; }
      if * { return Refused, d, wrote; }            // changed after the intent, or never absent
      o, more := Append(plan, DeleteDone(i));
      WriteAllAppend(plan, wrote, more);
      wrote := wrote + more;
      d := if more == [] then Attempted else Deleted;
      if o.Done? { if * { o := Refused; } }             // recorded, but past the deadline
    }

    method DeleteUnlessLive(plan: U64, current: History, i: Index)
      returns (o: Outcome, ghost d: Deletion, ghost wrote: seq<Event>)
      modifies this
      ensures records == old(records) + WriteAll(plan, wrote)
      ensures wrote <= DeleteOne(current, i, d)
      ensures !o.Crashed? ==> wrote == DeleteOne(current, i, d)
      ensures o.Done? ==> (i in current.started ==> i in current.stopped) && DeletedOrAbsent(d)
    {
      hide WriteAll, Write, DeletionEvents;
      if i in current.started && i !in current.stopped {
        WriteNothing(records, plan);
        return Refused, Untouched, [];
      }
      o, d, wrote := DeleteService(plan, i);
    }

    /** Reverse-order deletion; a refused service does not stop the others. */
    method DeleteServices(plan: U64, current: History) returns (o: Outcome, ghost ds: Deletions, ghost wrote: seq<Event>)
      modifies this
      ensures records == old(records) + WriteAll(plan, wrote)
      ensures wrote <= Deletes(current, ds, 0)
      ensures !o.Crashed? ==> wrote == Deletes(current, ds, 0)
      ensures o.Done? ==> AllDeleted(current, ds)
    {
      hide WriteAll, Write, DeleteOne, Deletes;
      ds := [Absent, Absent, Absent, Absent];
      o, wrote := Done, [];
      WriteNothing(records, plan);
      NothingDeleted(current, ds);
      var i := 4;
      while i > 0
        invariant 0 <= i <= 4
        invariant records == old(records) + WriteAll(plan, wrote)
        invariant wrote == Deletes(current, ds, i)
        invariant !o.Crashed?
        invariant o.Done? ==> forall k: Index :: i <= k ==> (k in current.started ==> k in current.stopped) && DeletedOrAbsent(ds[k])
      {
        i := i - 1;
        var r: Outcome;
        ghost var d: Deletion, more: seq<Event>;
        r, d, more := DeleteUnlessLive(plan, current, i);
        ghost var next: Deletions := ds[i := d];
        DeletesNext(current, ds, i, d);
        DeletesPrefix(current, next, i);
        WriteAllAppend(plan, wrote, more);
        ds, wrote := next, wrote + more;
        if r.Crashed? { return Crashed, ds, wrote; }
        if !r.Done? { o := Refused; }
      }
    }

    /** rollback_until */
    method RollbackUntil(plan: U64) returns (o: Outcome, ghost ds: Deletions, ghost late: bool, ghost wrote: seq<Event>)
      modifies this
      ensures records == old(records) + WriteAll(plan, wrote)
      ensures plan == 0 || Replay(old(records), plan).None? ==> wrote == []
      ensures plan != 0 && Replay(old(records), plan).Some? ==>
                wrote <= RollbackScript(Replay(old(records), plan).value, ds, late)
      ensures o.Done? ==> Reached(old(records), plan)
      ensures o.Done? && Reached(records, plan) ==> HistoryOf(records, plan).complete
    {
      hide WriteAll, Write, Replay, Deletes, AllDeleted;
      ds, late, wrote := [Absent, Absent, Absent, Absent], true, [];
      WriteNothing(records, plan);
      var ok, current := ReadHistory(records, plan);
      if !ok { return Refused, ds, late, wrote; }
      if current.complete { return Done, ds, false, wrote; }
      if current.committed || current.localDone { return Refused, ds, late, wrote; }
      ghost var more: seq<Event>;
      if !current.rollback {
        o, wrote := Append(plan, RollbackBegin);
        if !o.Done? { return; }
      }
      if * { return Refused, ds, late, wrote; }  // no service manager
      o, ds, more := DeleteServices(plan, current);
      WriteAllAppend(plan, wrote, more);
      wrote := wrote + more;
      if !o.Done? { return; }
      late := false;
      if * { return Refused, ds, late, wrote; }
      ghost var base := records;
      o, more := Append(plan, RollbackDone);
      WriteAllAppend(plan, wrote, more);
      wrote := wrote + more;
      LastIsDone(base, plan);
      if o.Done? { if * { o := Refused; } }
    }

    /** l4_bootstrap_rollback */
    method RollbackServices(plan: U64) returns (o: Outcome, ghost c: Call, ghost kept: nat)
      modifies this
      ensures c.Rollback?
      ensures records == Perform(old(records), Invoke(plan, c, kept))
      ensures o.Done? && Readable(old(records)) ==> Reached(records, plan) && HistoryOf(records, plan).complete
    {
      hide WriteAll, Write, Replay, RollbackScript, Perform, Readable;
      ghost var ds, late, wrote;
      o, ds, late, wrote := RollbackUntil(plan);
      c, kept := Rollback(ds, late), |wrote|;
      if plan == 0 || Replay(old(records), plan).None? {
        NothingKept(old(records), plan, c);
        WriteNothing(old(records), plan);
      } else {
        KeptPrefix(old(records), plan, c, wrote);
        if Readable(old(records)) { StillReached(old(records), plan, c, kept); }
      }
    }

    /** stop_one: identity and intent are durable before the stop is asked for. */
    method StopService(plan: U64, i: Index, seen: Observation) returns (o: Outcome, ghost wrote: seq<Event>)
      modifies this
      ensures records == old(records) + WriteAll(plan, wrote)
      ensures
        if plan == 0 || Replay(old(records), plan).None? || StopOne(Replay(old(records), plan).value, i, seen).None? then
          !o.Done? && wrote == []
        else
          var events := StopOne(Replay(old(records), plan).value, i, seen).value;
          wrote <= events && (o.Done? ==> wrote == events)
    {
      hide WriteAll, Write, Replay;
      wrote := [];
      WriteNothing(records, plan);
      var ok, current := ReadHistory(records, plan);
      if !ok { return Refused, wrote; }
      if * { return Refused, wrote; }
      ghost var more: seq<Event>;
      match seen {
        case Running(e) =>
          if i !in current.started { return Refused, wrote; }
          if current.epochs[i].pid != 0 && current.epochs[i] != e { return Refused, wrote; }
          if current.epochs[i].pid == 0 {
            o, wrote := Append(plan, Process(i, e.pid, e.birth));
            if !o.Done? { return; }
          }
        case NotRunning =>
          if i in current.started && current.epochs[i].pid == 0 { return Refused, wrote; }
      }
      if * { return Refused, wrote; }
      o, more := Append(plan, StopIntent(i));
      WriteAllAppend(plan, wrote, more);
      wrote := wrote + more;
      if !o.Done? { return; }
      if * { return Refused, wrote; }  // not stopped, or its process did not exit, in time
      o, more := Append(plan, StopDone(i));
      WriteAllAppend(plan, wrote, more);
      wrote := wrote + more;
    }

    /** The managed stops, top down, each re-reading the history. */
    method StopServices(plan: U64, seen: Observations, ghost h: History, ghost done: seq<Event>)
      returns (o: Outcome, ghost wrote: seq<Event>)
      requires plan != 0 && Pending(Replay(records, plan), h, seen, done, 4)
      modifies this
      ensures records == old(records) + WriteAll(plan, wrote)
      ensures forall c: Call :: c.Abort? && c.seen == seen ==> done + wrote <= Script(c, h)
      ensures o.Done? ==> Pending(Replay(records, plan), h, seen, done + wrote, 0)
    {
      hide WriteAll, Write, Replay, Script, StopsThenRollback, StopOne, Pending, Run;
      o, wrote := Done, [];
      WriteNothing(records, plan);
      assert done + [] == done;
      var i := 4;
      while i > 0
        invariant 0 <= i <= 4
        invariant records == old(records) + WriteAll(plan, wrote)
        invariant Pending(Replay(records, plan), h, seen, done + wrote, i)
        invariant o.Done?
      {
        i := i - 1;
        ghost var base, more := records, [];
        o, more := StopService(plan, i, seen[i]);
        WriteAllAppend(plan, wrote, more);
        PendingCut(Replay(base, plan), h, seen, done + wrote, i, more);
        assert done + wrote + more == done + (wrote + more);
        wrote := wrote + more;
        if !o.Done? { return; }
        ReplayWritten(base, plan, more);
      }
      PendingPrefix(Replay(records, plan), h, seen, done + wrote, 0);
    }

    method StopAndRollBack(plan: U64, seen: Observations, ghost h: History, ghost done: seq<Event>)
      returns (o: Outcome, ghost c: Call, ghost wrote: seq<Event>)
      requires plan != 0 && Pending(Replay(records, plan), h, seen, done, 4)
      modifies this
      ensures c.Abort? && c.seen == seen
      ensures records == old(records) + WriteAll(plan, wrote)
      ensures done + wrote <= Script(c, h)
      ensures o.Done? && Reached(records, plan) ==> HistoryOf(records, plan).complete
    {
      hide WriteAll, Write, Replay, Script, StopsThenRollback, StopOne, RollbackScript, Pending;
      ghost var more, ds, late;
      o, wrote := StopServices(plan, seen, h, done);
      c := Abort(seen, [Absent, Absent, Absent, Absent], true);
      if !o.Done? { return; }
      if * { return Refused, c, wrote; }
      ghost var base := records;
      o, ds, late, more := RollbackUntil(plan);
      c := Abort(seen, ds, late);
      WriteAllAppend(plan, wrote, more);
      PendingEnd(Replay(base, plan), h, c, done + wrote, more);
      assert done + wrote + more == done + (wrote + more);
      wrote := wrote + more;
    }

    /** l4_bootstrap_abort */
    method AbortServices(plan: U64, seen: Observations) returns (o: Outcome, ghost c: Call, ghost kept: nat)
      modifies this
      ensures c.Abort? && c.seen == seen
      ensures records == Perform(old(records), Invoke(plan, c, kept))
      ensures o.Done? && Readable(old(records)) ==> Reached(records, plan) && HistoryOf(records, plan).complete
    {
      hide WriteAll, Write, Replay, Script, Perform, Pending, Run, Readable;
      c, kept := Abort(seen, [Absent, Absent, Absent, Absent], true), 0;
      NothingKept(records, plan, c);
      var ok, current := ReadHistory(records, plan);
      if !ok { return Refused, c, kept; }
      if current.complete { return Done, c, kept; }
      if current.committed || current.localDone { return Refused, c, kept; }
      ghost var wrote, more: seq<Event> := [], [];
      WriteNothing(records, plan);
      o := Done;
      if !current.rollback {
        o, wrote := Append(plan, RollbackBegin);
      }
      PendingStart(current, seen);
      PendingPrefix(Some(current.(rollback := true)), current, seen, BeginRollback(current), 4);
      KeptPrefix(old(records), plan, c, wrote);
      kept := |wrote|;
      if !o.Done? { return; }
      if * { return Refused, c, kept; }  // no service manager, or start types could not be reset
      ReplayWritten(old(records), plan, wrote);
      BeginRuns(current);
      o, c, more := StopAndRollBack(plan, seen, current, wrote);
      WriteAllAppend(plan, wrote, more);
      KeptPrefix(old(records), plan, c, wrote + more);
      kept := |wrote + more|;
      if Readable(old(records)) { StillReached(old(records), plan, c, kept); }
    }
  }

  // --------------------------------------------------- shape of the abort script

  /** After `done`, the rest of every abort script with these observations is what is pending. */
  ghost predicate Pending(r: Option<History>, h: History, seen: Observations, done: seq<Event>, n: nat)
    requires n <= 4
  {
    forall c: Call :: c.Abort? && c.seen == seen ==> Script(c, h) == done + Rest(r, c, n)
  }

  function Rest(r: Option<History>, c: Call, n: nat): seq<Event>
    requires c.Abort? && n <= 4
  {
    match r case None => [] case Some(g) => StopsThenRollback(g, c, n)
  }

  lemma RegisterScript(h: History)
    requires !h.rollback && !h.committing
    ensures Script(Register, h) == Creates(4, h.crashDone)
  {
  }

  lemma ActivateScript(h: History, epochs: LiveEpochs)
    requires !h.rollback && !h.committing && h.registered == All
    ensures Script(Activate(epochs), h) == Starts(4, epochs)
  {
  }

  lemma CommitScripts(h: History)
    ensures !h.rollback && !h.complete && !h.local && h.ready == All && h.registered == All && !h.committed ==>
              Script(Commit, h) == (if h.committing then [] else [CommitBegin]) + Types(4) + [CommitDone]
    ensures !Terminal(h) && !h.rollback && !(h.committing && !h.local) && h.started == {} && h.ready == {} &&
            h.registered == All ==>
              Script(LocalCommit, h) == (if h.local then [] else [LocalBegin]) + Types(4) + [LocalDone]
  {
  }

  lemma {:induction false} DeletesDependOn(h: History, a: Deletions, b: Deletions, n: nat)
    requires n <= 4 && forall k: Index :: n <= k ==> a[k] == b[k]
    ensures Deletes(h, a, n) == Deletes(h, b, n)
    decreases 4 - n
  {
    hide DeleteOne;
    if n < 4 {
      DeletesDependOn(h, a, b, n + 1);
    }
  }

  lemma NothingDeleted(h: History, ds: Deletions)
    ensures Deletes(h, ds, 4) == []
  {
  }

  lemma DeletesNext(h: History, ds: Deletions, i: Index, d: Deletion)
    ensures Deletes(h, ds[i := d], i) == Deletes(h, ds, i + 1) + DeleteOne(h, i, d)
  {
    hide DeleteOne;
    DeletesDependOn(h, ds, ds[i := d], i + 1);
  }

  lemma {:induction false} DeletesPrefix(h: History, ds: Deletions, n: nat)
    requires n <= 4
    ensures Deletes(h, ds, n) <= Deletes(h, ds, 0)
  {
    hide DeleteOne;
    if n > 0 {
      DeletesPrefix(h, ds, n - 1);
    }
  }

  lemma PendingStart(h: History, seen: Observations)
    requires !Terminal(h)
    ensures Pending(Some(h.(rollback := true)), h, seen, BeginRollback(h), 4)
  {
    hide StopsThenRollback, BeginRollback;
  }

  lemma BeginRuns(h: History)
    requires !Terminal(h)
    ensures Run(h, BeginRollback(h)) == Some(h.(rollback := true))
  {
    if h.rollback {
      assert h.(rollback := true) == h;
    } else {
      RunOne(h, RollbackBegin);
    }
  }

  lemma PendingPrefix(r: Option<History>, h: History, seen: Observations, done: seq<Event>, n: nat)
    requires n <= 4 && Pending(r, h, seen, done, n)
    ensures forall c: Call :: c.Abort? && c.seen == seen ==> done <= Script(c, h)
  {
    hide StopsThenRollback, Script;
  }

  /** A stop cut anywhere stays on the script; a whole stop moves on to the next service. */
  lemma PendingCut(r: Option<History>, h: History, seen: Observations, done: seq<Event>, i: Index, more: seq<Event>)
    requires Pending(r, h, seen, done, i + 1)
    requires
      if r.None? || StopOne(r.value, i, seen[i]).None? then more == []
      else more <= StopOne(r.value, i, seen[i]).value
    ensures forall c: Call :: c.Abort? && c.seen == seen ==> done + more <= Script(c, h)
    ensures r.Some? && StopOne(r.value, i, seen[i]) == Some(more) ==> Pending(Run(r.value, more), h, seen, done + more, i)
  {
    hide Script, StopOne, Run, StopsThenRollback;
    forall c: Call | c.Abort? && c.seen == seen
      ensures done + more <= Script(c, h)
      ensures r.Some? && StopOne(r.value, i, seen[i]) == Some(more) ==>
                Script(c, h) == (done + more) + Rest(Run(r.value, more), c, i)
    {
      assert Script(c, h) == done + Rest(r, c, i + 1);
      if r.Some? {
        NextStop(r.value, c, i);
        if StopOne(r.value, i, seen[i]) == Some(more) {
          assert done + (more + Rest(Run(r.value, more), c, i)) == (done + more) + Rest(Run(r.value, more), c, i);
        }
      }
    }
  }

  lemma NextStop(g: History, c: Call, i: Index)
    requires c.Abort?
    ensures
      match StopOne(g, i, c.seen[i])
      case None => StopsThenRollback(g, c, i + 1) == []
      case Some(events) => StopsThenRollback(g, c, i + 1) == events + Rest(Run(g, events), c, i)
  {
    hide StopOne, Run, RollbackScript;
  }

  lemma PendingEnd(r: Option<History>, h: History, c: Call, done: seq<Event>, more: seq<Event>)
    requires c.Abort? && Pending(r, h, c.seen, done, 0)
    requires if r.None? then more == [] else more <= RollbackScript(r.value, c.deletions, c.late)
    ensures done + more <= Script(c, h)
  {
    hide Script, RollbackScript;
    assert Script(c, h) == done + Rest(r, c, 0);
  }
}

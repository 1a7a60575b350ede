/**
 What each driver of tools/l4common/bootstrap_services.c appends to the journal, as a
 function of the history it reads and of what the service manager answers.

 A driver may be abandoned after any append (a crash, an expired budget, a refused
 check), so one call contributes a prefix of its script.  The main result is that every
 journal built from any sequence of such calls, over any number of plans, is readable
 for every plan, and that an aborted plan has confirmed the stop of every process it
 started.
 */
module BootstrapScripts {
  import opened StoreBytes
  import opened Interruption
  import opened BootstrapHistory

  type LiveEpoch = e: Epoch | e.pid != 0 && e.birth != 0 witness Epoch(1, 1)

  type LiveEpochs = s: seq<LiveEpoch> | |s| == 4 witness [Epoch(1, 1), Epoch(1, 1), Epoch(1, 1), Epoch(1, 1)]

  /** What the service manager says about a service that is to be stopped. */
  datatype Observation = Running(epoch: LiveEpoch) | NotRunning

  type Observations = s: seq<Observation> | |s| == 4 witness [NotRunning, NotRunning, NotRunning, NotRunning]

  /** How far the deletion of one service gets. */
  datatype Deletion = Untouched | Absent | Attempted | Deleted

  type Deletions = s: seq<Deletion> | |s| == 4 witness [Absent, Absent, Absent, Absent]

  datatype Call =
    | Register
    | Activate(epochs: LiveEpochs)
    | Commit
    | LocalCommit
    | Rollback(deletions: Deletions, late: bool)
    | Abort(seen: Observations, deletions: Deletions, late: bool)

  // ------------------------------------------------------------------ scripts

  function CreateOne(i: Index, crashDone: bool): seq<Event> {
    [CreateIntent(i)] + (if i == 3 && !crashDone then [CrashIntent(i), CrashDone(i)] else []) + [CreateDone(i)]
  }

  /** Registration of the first n services. */
  function Creates(n: nat, crashDone: bool): seq<Event>
    requires n <= 4
  {
    if n == 0 then [] else Creates(n - 1, crashDone) + CreateOne(n - 1, crashDone)
  }

  function StartOne(i: Index, e: LiveEpoch): seq<Event> {
    [StartIntent(i), Process(i, e.pid, e.birth), Ready(i)]
  }

  function Starts(n: nat, epochs: LiveEpochs): seq<Event>
    requires n <= 4
  {
    if n == 0 then [] else Starts(n - 1, epochs) + StartOne(n - 1, epochs[n - 1])
  }

  /** Selection of the final start type of the first n services. */
  function Types(n: nat): seq<Event>
    requires n <= 4
  {
    if n == 0 then [] else Types(n - 1) + [TypeIntent(n - 1), TypeDone(n - 1)]
  }

  function BeginRollback(h: History): seq<Event> {
    if h.rollback then [] else [RollbackBegin]
  }

  function DeletionEvents(i: Index, d: Deletion): seq<Event> {
    match d
    case Untouched => []
    case Absent => [DeleteDone(i)]
    case Attempted => [DeleteIntent(i)]
    case Deleted => [DeleteIntent(i), DeleteDone(i)]
  }

  /** A started service without a confirmed stop is left alone. */
  function DeleteOne(h: History, i: Index, d: Deletion): seq<Event> {
    if i in h.started && i !in h.stopped then [] else DeletionEvents(i, d)
  }

  /** Deletion of the services 3, 2, ... down to n. */
  function Deletes(h: History, deletions: Deletions, n: nat): seq<Event>
    requires n <= 4
    decreases 4 - n
  {
    if n == 4 then [] else Deletes(h, deletions, n + 1) + DeleteOne(h, n, deletions[n])
  }

  predicate DeletedOrAbsent(d: Deletion) {
    d.Deleted? || d.Absent?
  }

  predicate AllDeleted(h: History, deletions: Deletions) {
    forall i: Index :: (i in h.started ==> i in h.stopped) && DeletedOrAbsent(deletions[i])
  }

  function RollbackScript(h: History, deletions: Deletions, late: bool): seq<Event> {
    if Terminal(h) then []
    else
      BeginRollback(h) + Deletes(h, deletions, 0) +
      (if AllDeleted(h, deletions) && !late then [RollbackDone] else [])
  }

  /** The records of one managed stop, or nothing when the driver refuses before any record. */
  function StopOne(h: History, i: Index, o: Observation): Option<seq<Event>> {
    match o
    case Running(e) =>
      if i !in h.started then None
      else if h.epochs[i].pid == 0 then Some([Process(i, e.pid, e.birth), StopIntent(i), StopDone(i)])
      else if h.epochs[i] != e then None
      else Some([StopIntent(i), StopDone(i)])
    case NotRunning =>
      if i in h.started && h.epochs[i].pid == 0 then None else Some([StopIntent(i), StopDone(i)])
  }

  /** Stops of the services n - 1, ..., 0 and then the rollback, each re-reading the history. */
  function StopsThenRollback(h: History, c: Call, n: nat): seq<Event>
    requires c.Abort? && n <= 4
    decreases n
  {
    if n == 0 then RollbackScript(h, c.deletions, c.late)
    else
      match StopOne(h, n - 1, c.seen[n - 1])
      case None => []
      case Some(events) =>
        events + match Run(h, events)
                 case None => []
                 case Some(next) => StopsThenRollback(next, c, n - 1)
  }

  function Script(c: Call, h: History): seq<Event> {
    match c
    case Register =>
      if h.rollback || h.committing then [] else Creates(4, h.crashDone)
    case Activate(epochs) =>
      if h.rollback || h.committing || h.registered != All then [] else Starts(4, epochs)
    case Commit =>
      if h.rollback || h.complete || h.local || h.ready != All || h.registered != All || h.committed then []
      else (if h.committing then [] else [CommitBegin]) + Types(4) + [CommitDone]
    case LocalCommit =>
      if Terminal(h) || h.rollback || (h.committing && !h.local) || h.started != {} || h.ready != {} ||
         h.registered != All then []
      else (if h.local then [] else [LocalBegin]) + Types(4) + [LocalDone]
    case Rollback(deletions, late) => RollbackScript(h, deletions, late)
    case Abort(_, _, _) =>
      if Terminal(h) then []
      else BeginRollback(h) + StopsThenRollback(h.(rollback := true), c, 4)
  }

  // ------------------------------------------------------------------ sessions

  datatype Step =
    | Invoke(plan: U64, call: Call, kept: nat)  // the first `kept` records of the call survive
    | Other(record: Record)                     // a record of another subsystem

  function Perform(journal: seq<Record>, s: Step): seq<Record> {
    match s
    case Invoke(plan, call, kept) =>
      if plan == 0 then journal
      else
        (match Replay(journal, plan)
         case None => journal
         case Some(h) => journal + WriteAll(plan, Cut(Script(call, h), kept)))
    case Other(record) =>
      if Parse(record).Foreign? then journal + [record] else journal
  }

  function Continue(journal: seq<Record>, steps: seq<Step>): seq<Record>
    decreases |steps|
  {
    if steps == [] then journal
    else Perform(Continue(journal, steps[..|steps| - 1]), steps[|steps| - 1])
  }

  // ---------------------------------------------------- invariant of the drivers

  /** Beyond the replay guards: what only the drivers keep. */
  ghost predicate Sound(h: History) {
    && Accepted(h)
    && (forall i: Index :: i in h.stopping && i in h.started ==> h.epochs[i].pid != 0)
    && (h.complete ==> h.started <= h.stopped)
  }

  /** Every prefix of the events is permitted and leaves a sound history. */
  ghost predicate Safe(h: History, events: seq<Event>)
    decreases |events|
  {
    events == [] ||
    (Permitted(h, events[0]) && Sound(Advance(h, events[0])) && Safe(Advance(h, events[0]), events[1..]))
  }

  function After(h: History, events: seq<Event>): History {
    match Run(h, events) case None => h case Some(next) => next
  }

  lemma SafeNothing(h: History)
    ensures Safe(h, []) && Run(h, []) == Some(h) && After(h, []) == h
  {
  }

  lemma {:induction false} SafeRuns(h: History, events: seq<Event>)
    requires Sound(h) && Safe(h, events)
    ensures Run(h, events).Some? && Sound(Run(h, events).value)
    decreases |events|
  {
    hide Accepted, Permitted, Advance;
    if events != [] {
      SafeRuns(Advance(h, events[0]), events[1..]);
    }
  }

  lemma {:induction false} SafeAppend(h: History, a: seq<Event>, b: seq<Event>)
    requires Sound(h) && Safe(h, a) && Safe(After(h, a), b)
    ensures Safe(h, a + b) && After(h, a + b) == After(After(h, a), b)
    ensures Run(h, a + b).Some?
    decreases |a|
  {
    hide Sound, Permitted, Advance;
    SafeRuns(h, a);
    SafeRuns(After(h, a), b);
    if a == [] {
      assert a + b == b;
    } else {
      assert (a + b)[1..] == a[1..] + b;
      var next := Advance(h, a[0]);
      SafeRuns(next, a[1..]);
      SafeAppend(next, a[1..], b);
    }
  }

  lemma {:induction false} SafePrefix(h: History, events: seq<Event>, kept: nat)
    requires Safe(h, events)
    ensures Safe(h, Cut(events, kept))
    decreases |events|
  {
    hide Sound, Permitted, Advance;
    if kept >= |events| {
      assert Cut(events, kept) == events;
    } else if kept > 0 {
      assert Cut(events[1..], kept - 1) == events[1..][..kept - 1];
      assert events[..kept][1..] == events[1..][..kept - 1];
      SafePrefix(Advance(h, events[0]), events[1..], kept - 1);
    }
  }

  // ------------------------------------------------------- each script is safe

  lemma {:induction false} CreatesSafe(h: History, n: nat)
    requires Sound(h) && !h.rollback && !h.committing && n <= 4
    ensures Safe(h, Creates(n, h.crashDone))
    ensures
      var g := After(h, Creates(n, h.crashDone));
      && Sound(g) && !g.rollback && !g.committing
      && (if n < 4 then g.crashDone == h.crashDone else g.crashDone)
      && (forall i: Index :: i < n ==> i in g.registered)
  {
    hide Safe, After, Sound, Permitted, Advance, CreateOne;
    SafeNothing(h);
    if n > 0 {
      CreatesSafe(h, n - 1);
      var g := After(h, Creates(n - 1, h.crashDone));
      CreateOneSafe(g, n - 1);
      SafeAppend(h, Creates(n - 1, h.crashDone), CreateOne(n - 1, h.crashDone));
    }
  }

  lemma CreateOneSafe(h: History, i: Index)
    requires Sound(h) && !h.rollback && !h.committing
    ensures Safe(h, CreateOne(i, h.crashDone))
    ensures
      var g := After(h, CreateOne(i, h.crashDone));
      && Sound(g) && !g.rollback && !g.committing
      && (if i < 3 then g.crashDone == h.crashDone else g.crashDone)
      && g.registered == h.registered + {i}
  {
    hide Safe, After, Sound, Permitted, Advance;
    if i == 3 && !h.crashDone {
      CreateSupervisorSafe(h);
      assert CreateOne(i, h.crashDone) == [CreateIntent(3), CrashIntent(3), CrashDone(3)] + [CreateDone(3)];
    } else {
      CreatePlainSafe(h, i);
      assert CreateOne(i, h.crashDone) == [CreateIntent(i), CreateDone(i)];
    }
  }

  lemma CreatePlainSafe(h: History, i: Index)
    requires Sound(h) && !h.rollback && !h.committing
    ensures
      var g := After(h, [CreateIntent(i), CreateDone(i)]);
      && Safe(h, [CreateIntent(i), CreateDone(i)]) && Sound(g) && !g.rollback && !g.committing && g.crashDone == h.crashDone
      && g.registered == h.registered + {i}
  {
    hide Safe, After;
    SafeTwo(h, CreateIntent(i), CreateDone(i));
  }

  lemma CreateSupervisorSafe(h: History)
    requires Sound(h) && !h.rollback && !h.committing
    ensures
      var events := [CreateIntent(3), CrashIntent(3), CrashDone(3)] + [CreateDone(3)];
      var g := After(h, events);
      Safe(h, events) && Sound(g) && !g.rollback && !g.committing && g.crashDone && g.registered == h.registered + {3}
  {
    hide Safe, After;
    var g3 := Advance(Advance(Advance(h, CreateIntent(3)), CrashIntent(3)), CrashDone(3));
    SafeThree(h, CreateIntent(3), CrashIntent(3), CrashDone(3));
    SafeOne(g3, CreateDone(3));
    SafeAppend(h, [CreateIntent(3), CrashIntent(3), CrashDone(3)], [CreateDone(3)]);
  }

  lemma SafeOne(h: History, a: Event)
    requires Sound(h) && Permitted(h, a) && (a.StopIntent? && a.i in h.started ==> h.epochs[a.i].pid != 0)
    requires a.RollbackDone? ==> h.started <= h.stopped
    ensures Safe(h, [a]) && After(h, [a]) == Advance(h, a) && Sound(Advance(h, a))
  {
    AcceptedStep(h, a);
    assert Run(h, [a]) == Some(Advance(h, a));
  }

  lemma SafeTwo(h: History, a: Event, b: Event)
    requires Sound(h) && Permitted(h, a) && (a.StopIntent? && a.i in h.started ==> h.epochs[a.i].pid != 0)
    requires !a.RollbackDone? && !b.RollbackDone? && !b.StopIntent?
    requires Permitted(Advance(h, a), b)
    ensures Safe(h, [a, b]) && After(h, [a, b]) == Advance(Advance(h, a), b) && Sound(After(h, [a, b]))
  {
    hide Safe, After;
    SafeOne(h, a);
    SafeOne(Advance(h, a), b);
    SafeAppend(h, [a], [b]);
    assert [a] + [b] == [a, b];
  }

  lemma SafeThree(h: History, a: Event, b: Event, c: Event)
    requires Sound(h) && Permitted(h, a) && !a.StopIntent? && !c.StopIntent?
    requires Permitted(Advance(h, a), b)
    requires b.StopIntent? && b.i in h.started ==> Advance(h, a).epochs[b.i].pid != 0
    requires b.StopIntent? ==> a.Process?
    requires !a.RollbackDone? && !b.RollbackDone? && !c.RollbackDone?
    requires Permitted(Advance(Advance(h, a), b), c)
    ensures Safe(h, [a, b, c]) && After(h, [a, b, c]) == Advance(Advance(Advance(h, a), b), c)
    ensures Sound(After(h, [a, b, c]))
  {
    hide Safe, After;
    SafeOne(h, a);
    SafeTwo(Advance(h, a), b, c);
    SafeAppend(h, [a], [b, c]);
    assert [a] + [b, c] == [a, b, c];
  }

  lemma {:induction false} StartsSafe(h: History, epochs: LiveEpochs, n: nat)
    requires Sound(h) && !h.rollback && !h.committing && h.registered == All && n <= 4
    ensures Safe(h, Starts(n, epochs))
    ensures
      var g := After(h, Starts(n, epochs));
      && Sound(g) && !g.rollback && !g.committing && g.registered == All
      && (forall i: Index :: i < n ==> i in g.ready && g.epochs[i] == epochs[i])
  {
    hide Safe, After;
    SafeNothing(h);
    if n > 0 {
      StartsSafe(h, epochs, n - 1);
      var g := After(h, Starts(n - 1, epochs));
      var i: Index := n - 1;
      SafeThree(g, StartIntent(i), Process(i, epochs[i].pid, epochs[i].birth), Ready(i));
      SafeAppend(h, Starts(n - 1, epochs), StartOne(i, epochs[i]));
    }
  }

  lemma {:induction false} TypesSafe(h: History, n: nat)
    requires Sound(h) && !h.rollback && h.committing && !Terminal(h) && n <= 4
    ensures Safe(h, Types(n))
    ensures
      var g := After(h, Types(n));
      && Sound(g) && !g.rollback && g.committing && !Terminal(g) && g.local == h.local
      && (forall i: Index :: i < n ==> i in g.typeDone)
  {
    hide Safe, After;
    SafeNothing(h);
    if n > 0 {
      TypesSafe(h, n - 1);
      var g := After(h, Types(n - 1));
      SafeTwo(g, TypeIntent(n - 1), TypeDone(n - 1));
      SafeAppend(h, Types(n - 1), [TypeIntent(n - 1), TypeDone(n - 1)]);
    }
  }

  lemma FinishSafe(g: History, end: Event)
    requires Sound(g) && !g.rollback && !Terminal(g) && g.committing
    requires (end.CommitDone? && !g.local) || (end.LocalDone? && g.local)
    ensures Safe(g, Types(4) + [end])
    ensures
      var f := After(g, Types(4) + [end]);
      f.typeDone == All && (if end.CommitDone? then f.committed else f.localDone)
  {
    hide Safe, After, Types, Sound;
    TypesSafe(g, 4);
    var t := After(g, Types(4));
    assert t.typeDone == All;
    SafeOne(t, end);
    SafeAppend(g, Types(4), [end]);
  }

  lemma CommitScriptSafe(h: History, begin: seq<Event>, end: Event)
    requires Sound(h) && !h.rollback && !Terminal(h)
    requires begin == [] || (|begin| == 1 && Permitted(h, begin[0]) && (begin[0].CommitBegin? || begin[0].LocalBegin?))
    requires
      var g := if begin == [] then h else Advance(h, begin[0]);
      g.committing && ((end.CommitDone? && !g.local) || (end.LocalDone? && g.local))
    ensures Safe(h, begin + Types(4) + [end])
    ensures
      var g := After(h, begin + Types(4) + [end]);
      g.typeDone == All && (if end.CommitDone? then g.committed else g.localDone)
  {
    hide Safe, After, Types, Sound, Permitted;
    if begin == [] {
      SafeNothing(h);
    } else {
      SafeOne(h, begin[0]);
      assert begin == [begin[0]];
    }
    var g := After(h, begin);
    FinishSafe(g, end);
    SafeAppend(h, begin, Types(4) + [end]);
    assert begin + Types(4) + [end] == begin + (Types(4) + [end]);
  }

  lemma {:induction false} DeletesSafe(h: History, deletions: Deletions, g: History, n: nat)
    requires Sound(g) && g.rollback && !Terminal(g) && n <= 4
    ensures Safe(g, Deletes(h, deletions, n)) && After(g, Deletes(h, deletions, n)) == g
    decreases 4 - n
  {
    hide Safe, After, Sound, Permitted, Advance, DeleteOne;
    SafeNothing(g);
    if n < 4 {
      DeletesSafe(h, deletions, g, n + 1);
      DeleteOneSafe(h, g, n, deletions[n]);
      SafeAppend(g, Deletes(h, deletions, n + 1), DeleteOne(h, n, deletions[n]));
    }
  }

  lemma DeleteOneSafe(h: History, g: History, i: Index, d: Deletion)
    requires Sound(g) && g.rollback && !Terminal(g)
    ensures Safe(g, DeleteOne(h, i, d)) && After(g, DeleteOne(h, i, d)) == g
  {
    hide Safe, After;
    SafeNothing(g);
    if i in h.started && i !in h.stopped {
    } else {
      match d
      case Untouched =>
      case Absent => SafeOne(g, DeleteDone(i));
      case Attempted => SafeOne(g, DeleteIntent(i));
      case Deleted => SafeTwo(g, DeleteIntent(i), DeleteDone(i));
    }
  }

  lemma BeginSafe(h: History)
    requires Sound(h) && !Terminal(h)
    ensures Safe(h, BeginRollback(h)) && After(h, BeginRollback(h)) == h.(rollback := true)
    ensures Sound(h.(rollback := true))
  {
    if h.rollback {
      assert h.(rollback := true) == h;
    } else {
      SafeOne(h, RollbackBegin);
    }
  }

  lemma RollbackScriptSafe(h: History, deletions: Deletions, late: bool)
    requires Sound(h)
    ensures Safe(h, RollbackScript(h, deletions, late))
    ensures !Terminal(h) && AllDeleted(h, deletions) && !late ==> After(h, RollbackScript(h, deletions, late)).complete
  {
    hide Safe, After, Deletes;
    SafeNothing(h);
    if !Terminal(h) {
      BeginSafe(h);
      var g := h.(rollback := true);
      DeletesSafe(h, deletions, g, 0);
      SafeNothing(g);
      var tail := if AllDeleted(h, deletions) && !late then [RollbackDone] else [];
      if tail != [] {
        SafeOne(g, RollbackDone);
      }
      SafeAppend(g, Deletes(h, deletions, 0), tail);
      SafeAppend(h, BeginRollback(h), Deletes(h, deletions, 0) + tail);
      assert RollbackScript(h, deletions, late) == BeginRollback(h) + (Deletes(h, deletions, 0) + tail);
    }
  }

  lemma StopOneSafe(h: History, i: Index, o: Observation)
    requires Sound(h) && h.rollback && !Terminal(h)
    requires forall k: Index :: i < k ==> k in h.stopped
    requires StopOne(h, i, o).Some?
    ensures Safe(h, StopOne(h, i, o).value)
    ensures
      var g := After(h, StopOne(h, i, o).value);
      && Run(h, StopOne(h, i, o).value) == Some(g)
      && Sound(g) && g.rollback && !Terminal(g)
      && g.started == h.started
      && g.stopped == h.stopped + {i}
      && (forall k: Index :: k != i ==> g.epochs[k] == h.epochs[k])
  {
    hide Safe;
    if o.Running? && h.epochs[i].pid == 0 {
      SafeThree(h, Process(i, o.epoch.pid, o.epoch.birth), StopIntent(i), StopDone(i));
      SafeRuns(h, [Process(i, o.epoch.pid, o.epoch.birth), StopIntent(i), StopDone(i)]);
    } else {
      SafeTwo(h, StopIntent(i), StopDone(i));
      SafeRuns(h, [StopIntent(i), StopDone(i)]);
    }
  }

  /** The stop would not be refused by the driver. */
  predicate Consistent(h: History, seen: Observations, n: nat) {
    forall i: Index :: i < n ==> StopOne(h, i, seen[i]).Some?
  }

  lemma {:induction false} StopsSafe(h: History, c: Call, n: nat)
    requires c.Abort? && n <= 4
    requires Sound(h) && h.rollback && !Terminal(h)
    requires forall k: Index :: n <= k ==> k in h.stopped
    ensures Safe(h, StopsThenRollback(h, c, n))
    ensures
      Consistent(h, c.seen, n) && (forall i: Index :: DeletedOrAbsent(c.deletions[i])) && !c.late ==>
        After(h, StopsThenRollback(h, c, n)).complete
    decreases n
  {
    hide Safe, RollbackScript, Accepted, Permitted, Advance;
    SafeNothing(h);
    if n == 0 {
      RollbackScriptSafe(h, c.deletions, c.late);
    } else if StopOne(h, n - 1, c.seen[n - 1]).Some? {
      StopOneSafe(h, n - 1, c.seen[n - 1]);
      var events := StopOne(h, n - 1, c.seen[n - 1]).value;
      var g := After(h, events);
      StopsSafe(g, c, n - 1);
      SafeAppend(h, events, StopsThenRollback(g, c, n - 1));
    }
  }

  lemma ScriptSafe(c: Call, h: History)
    requires Sound(h)
    ensures Safe(h, Script(c, h))
  {
    hide Safe, After, Creates, Starts, Types, RollbackScript, StopsThenRollback;
    SafeNothing(h);
    match c
    case Register =>
      if !h.rollback && !h.committing { CreatesSafe(h, 4); }
    case Activate(epochs) =>
      if !h.rollback && !h.committing && h.registered == All { StartsSafe(h, epochs, 4); }
    case Commit =>
      if Script(c, h) != [] {
        CommitScriptSafe(h, if h.committing then [] else [CommitBegin], CommitDone);
      }
    case LocalCommit =>
      if Script(c, h) != [] {
        CommitScriptSafe(h, if h.local then [] else [LocalBegin], LocalDone);
      }
    case Rollback(deletions, late) => RollbackScriptSafe(h, deletions, late);
    case Abort(_, _, _) =>
      if !Terminal(h) {
        BeginSafe(h);
        StopsSafe(h.(rollback := true), c, 4);
        SafeAppend(h, BeginRollback(h), StopsThenRollback(h.(rollback := true), c, 4));
      }
  }

  // ------------------------------------------------------------- main results

  ghost predicate Readable(journal: seq<Record>) {
    forall plan: U64 :: plan != 0 ==> Replay(journal, plan).Some? && Sound(Replay(journal, plan).value)
  }

  lemma InvokeReadable(journal: seq<Record>, s: Step)
    requires Readable(journal) && s.Invoke? && s.plan != 0
    ensures Readable(Perform(journal, s))
  {
    hide Sound, Script, Run, Replay;
    var h := Replay(journal, s.plan).value;
    var events := Cut(Script(s.call, h), s.kept);
    ScriptSafe(s.call, h);
    SafePrefix(h, Script(s.call, h), s.kept);
    SafeRuns(h, events);
    forall plan: U64 | plan != 0
      ensures Replay(Perform(journal, s), plan).Some? && Sound(Replay(Perform(journal, s), plan).value)
    {
      if plan == s.plan {
        ReplayWritten(journal, plan, events);
      } else {
        ReplayOtherPlan(journal, s.plan, plan, events);
      }
    }
  }

  lemma PerformReadable(journal: seq<Record>, s: Step)
    requires Readable(journal)
    ensures Readable(Perform(journal, s))
  {
    hide Sound, Script, Replay;
    if s.Invoke? && s.plan != 0 {
      InvokeReadable(journal, s);
    } else if s.Other? && Parse(s.record).Foreign? {
      forall plan: U64 | plan != 0
        ensures Replay(Perform(journal, s), plan).Some? && Sound(Replay(Perform(journal, s), plan).value)
      {
        ReplayForeign(journal, s.record, plan);
      }
    }
  }

  /**
   Every journal the drivers can produce, by any sequence of calls on any plans, each call
   abandoned after any of its appends, is accepted by the replay of every plan.
   */
  lemma {:induction false} EveryJournalIsReadable(steps: seq<Step>)
    ensures Readable(Continue([], steps))
    decreases |steps|
  {
    if steps != [] {
      EveryJournalIsReadable(steps[..|steps| - 1]);
      PerformReadable(Continue([], steps[..|steps| - 1]), steps[|steps| - 1]);
    }
  }

  /** A plan that the drivers report as aborted stopped, by recorded epoch, whatever it had started. */
  lemma AbortedMeansStopped(steps: seq<Step>, plan: U64, i: Index)
    requires plan != 0
    requires
      var r := Replay(Continue([], steps), plan);
      r.Some? && r.value.complete && i in r.value.started
    ensures
      var h := Replay(Continue([], steps), plan).value;
      && !h.committed && !h.localDone
      && i in h.stopped && h.epochs[i].pid != 0 && h.epochs[i].birth != 0
  {
    hide Replay, Continue;
    EveryJournalIsReadable(steps);
  }

  /**
   From every state the drivers can reach, interrupted commits included, one uninterrupted
   abort ends aborted, provided the observed processes are the recorded ones, no started
   service vanished unobserved, and every service could be deleted in time.
   */
  lemma AbortCompletes(h: History, c: Call)
    requires Sound(h) && !Terminal(h) && c.Abort?
    requires Consistent(h, c.seen, 4) && (forall i: Index :: DeletedOrAbsent(c.deletions[i])) && !c.late
    ensures After(h, Script(c, h)).complete
  {
    hide After, Safe, StopsThenRollback, Accepted;
    BeginSafe(h);
    var g := h.(rollback := true);
    assert forall i: Index :: StopOne(g, i, c.seen[i]) == StopOne(h, i, c.seen[i]);
    StopsSafe(g, c, 4);
    SafeAppend(h, BeginRollback(h), StopsThenRollback(g, c, 4));
  }

  /** An uninterrupted registration registers everything, with the supervisor's crash profile, unless the plan is past it. */
  lemma RegisterExactlyWhen(h: History)
    requires Sound(h)
    ensures
      var g := After(h, Script(Register, h));
      if !h.rollback && !h.committing then g.created == All && g.registered == All && g.crashDone else g == h
  {
    hide After, Creates, Safe;
    SafeNothing(h);
    if !h.rollback && !h.committing {
      CreatesSafe(h, 4);
    }
  }

  /** An uninterrupted activation makes everything ready with the observed epochs exactly when the plan is registered and not past it. */
  lemma ActivateExactlyWhen(h: History, epochs: LiveEpochs)
    requires Sound(h)
    ensures
      var g := After(h, Script(Activate(epochs), h));
      if !h.rollback && !h.committing && h.registered == All then g.ready == All && g.started == All && g.epochs == epochs
      else g == h
  {
    hide After, Starts, Safe;
    SafeNothing(h);
    if !h.rollback && !h.committing && h.registered == All {
      StartsSafe(h, epochs, 4);
    }
  }

  /** An uninterrupted local commit deploys exactly a registered plan that never started anything and is not past it. */
  lemma LocalCommitExactlyWhen(h: History)
    requires Sound(h) && !Terminal(h)
    ensures
      var g := After(h, Script(LocalCommit, h));
      if !h.rollback && (h.committing ==> h.local) && h.started == {} && h.ready == {} && h.registered == All
      then g.localDone && g.typeDone == All else g == h
  {
    hide After, Types, Safe;
    SafeNothing(h);
    if Script(LocalCommit, h) != [] {
      CommitScriptSafe(h, if h.local then [] else [LocalBegin], LocalDone);
    }
  }

  /** The records of a first registration, in full. */
  lemma RegistrationInFull()
    ensures Creates(4, false) ==
      [CreateIntent(0), CreateDone(0), CreateIntent(1), CreateDone(1), CreateIntent(2), CreateDone(2),
       CreateIntent(3), CrashIntent(3), CrashDone(3), CreateDone(3)]
    ensures Creates(4, true) ==
      [CreateIntent(0), CreateDone(0), CreateIntent(1), CreateDone(1), CreateIntent(2), CreateDone(2), CreateIntent(3), CreateDone(3)]
  {
    assert Creates(1, false) == [CreateIntent(0), CreateDone(0)] == Creates(1, true);
    assert Creates(2, false) == Creates(1, false) + [CreateIntent(1), CreateDone(1)] == Creates(2, true);
    assert Creates(3, false) == Creates(2, false) + [CreateIntent(2), CreateDone(2)] == Creates(3, true);
  }

  /** The records of an activation, in full. */
  lemma ActivationInFull(e: LiveEpochs)
    ensures Starts(4, e) ==
      [StartIntent(0), Process(0, e[0].pid, e[0].birth), Ready(0), StartIntent(1), Process(1, e[1].pid, e[1].birth), Ready(1),
       StartIntent(2), Process(2, e[2].pid, e[2].birth), Ready(2), StartIntent(3), Process(3, e[3].pid, e[3].birth), Ready(3)]
  {
    assert Starts(1, e) == [StartIntent(0), Process(0, e[0].pid, e[0].birth), Ready(0)];
    assert Starts(2, e) == Starts(1, e) + [StartIntent(1), Process(1, e[1].pid, e[1].birth), Ready(1)];
    assert Starts(3, e) == Starts(2, e) + [StartIntent(2), Process(2, e[2].pid, e[2].birth), Ready(2)];
  }

  /** The records between the beginning and the end of a commit, in full. */
  lemma TypesInFull()
    ensures Types(4) ==
      [TypeIntent(0), TypeDone(0), TypeIntent(1), TypeDone(1), TypeIntent(2), TypeDone(2), TypeIntent(3), TypeDone(3)]
  {
    assert Types(1) == [TypeIntent(0), TypeDone(0)];
    assert Types(2) == Types(1) + [TypeIntent(1), TypeDone(1)];
    assert Types(3) == Types(2) + [TypeIntent(2), TypeDone(2)];
  }

  // ------------------------------------------------------------- what is stopped and deleted

  /** Past the service n the epochs are fixed; below it a running process must be the recorded one. */
  lemma {:induction false} StopsObserve(h: History, c: Call, n: nat)
    requires c.Abort? && n <= 4
    requires Sound(h) && h.rollback && !Terminal(h)
    requires forall k: Index :: n <= k ==> k in h.stopped
    requires After(h, StopsThenRollback(h, c, n)).complete
    ensures
      var g := After(h, StopsThenRollback(h, c, n));
      && g.started == h.started
      && (forall i: Index :: h.epochs[i].pid != 0 ==> g.epochs[i] == h.epochs[i])
      && (forall i: Index :: i < n && c.seen[i].Running? ==> i in h.started && g.epochs[i] == c.seen[i].epoch)
    decreases n
  {
    hide Safe, RollbackScript, Accepted, Permitted, Advance, Run, Script;
    StopsSafe(h, c, n);
    var events := StopsThenRollback(h, c, n);
    SafeRuns(h, events);
    var g := After(h, events);
    assert g.started == h.started by { InstallationIsFrozen(h, events); }
    forall i: Index | h.epochs[i].pid != 0 ensures g.epochs[i] == h.epochs[i] {
      EpochsAreFixed(h, events, i);
    }
    if n > 0 {
      NothingRun(h);
      var i: Index := n - 1;
      assert StopOne(h, i, c.seen[i]).Some?;
      var first := StopOne(h, i, c.seen[i]).value;
      StopOneSafe(h, i, c.seen[i]);
      var m := After(h, first);
      StopsSafe(m, c, n - 1);
      SafeAppend(h, first, StopsThenRollback(m, c, n - 1));
      StopsObserve(m, c, n - 1);
      if c.seen[i].Running? {
        StoppedEpoch(h, i, c.seen[i]);
      }
    }
  }

  lemma NothingRun(h: History)
    ensures Run(h, []) == Some(h) && After(h, []) == h
  {
  }

  /** A managed stop of a running process leaves that very process recorded. */
  lemma StoppedEpoch(h: History, i: Index, o: Observation)
    requires h.rollback && !Terminal(h) && o.Running?
    requires StopOne(h, i, o).Some? && Run(h, StopOne(h, i, o).value).Some?
    ensures
      var g := After(h, StopOne(h, i, o).value);
      i in h.started && g.epochs[i] == o.epoch && g.epochs[i].pid != 0
  {
    var e := o.epoch;
    var events := StopOne(h, i, o).value;
    if h.epochs[i].pid == 0 {
      var m := Advance(h, Process(i, e.pid, e.birth));
      assert events[0] == Process(i, e.pid, e.birth) && m.epochs[i] == e;
      assert events[1..] == [StopIntent(i), StopDone(i)];
      EpochsAreFixed(m, events[1..], i);
    } else {
      EpochsAreFixed(h, events, i);
    }
  }

  /**
   An abort that ends aborted stopped no process but the recorded ones: whatever the
   service manager showed running was started by the plan and is the recorded process.
   */
  lemma AbortStopsOnlyRecordedProcesses(h: History, c: Call, i: Index)
    requires Sound(h) && !Terminal(h) && c.Abort? && After(h, Script(c, h)).complete && c.seen[i].Running?
    ensures i in h.started && After(h, Script(c, h)).epochs[i] == c.seen[i].epoch
    ensures h.epochs[i].pid != 0 ==> h.epochs[i] == c.seen[i].epoch
  {
    hide After, Safe, StopsThenRollback, Accepted, Run;
    BeginSafe(h);
    var g := h.(rollback := true);
    StopsSafe(g, c, 4);
    SafeAppend(h, BeginRollback(h), StopsThenRollback(g, c, 4));
    StopsObserve(g, c, 4);
  }

  predicate RecordsDeletion(e: Event) {
    e.DeleteIntent? || e.DeleteDone?
  }

  /** Whenever a deletion is recorded, the service was not started or its stop is confirmed. */
  predicate DeletesOnlyStopped(h: History, events: seq<Event>)
    decreases |events|
  {
    events == [] ||
    ((RecordsDeletion(events[0]) && events[0].i in h.started ==> events[0].i in h.stopped) &&
     DeletesOnlyStopped(Advance(h, events[0]), events[1..]))
  }

  lemma {:induction false} DeletesAppend(h: History, a: seq<Event>, b: seq<Event>)
    requires DeletesOnlyStopped(h, a) && Run(h, a).Some? && DeletesOnlyStopped(Run(h, a).value, b)
    ensures DeletesOnlyStopped(h, a + b)
    decreases |a|
  {
    hide Permitted, Advance;
    if a == [] {
      assert a + b == b;
    } else {
      assert (a + b)[1..] == a[1..] + b;
      DeletesAppend(Advance(h, a[0]), a[1..], b);
    }
  }

  lemma {:induction false} WithoutDeletions(h: History, events: seq<Event>)
    requires forall k :: 0 <= k < |events| ==> !RecordsDeletion(events[k])
    ensures DeletesOnlyStopped(h, events)
    decreases |events|
  {
    hide Advance;
    if events != [] {
      assert forall k :: 0 <= k < |events[1..]| ==> events[1..][k] == events[k + 1];
      WithoutDeletions(Advance(h, events[0]), events[1..]);
    }
  }

  lemma DeleteOneOnlyStopped(h: History, g: History, i: Index, d: Deletion)
    requires g.started == h.started && g.stopped == h.stopped
    ensures DeletesOnlyStopped(g, DeleteOne(h, i, d))
  {
  }

  lemma {:induction false} DeletesAreOfStopped(h: History, deletions: Deletions, g: History, n: nat)
    requires Sound(g) && g.rollback && !Terminal(g) && n <= 4 && g.started == h.started && g.stopped == h.stopped
    ensures DeletesOnlyStopped(g, Deletes(h, deletions, n))
    decreases 4 - n
  {
    hide Safe, After, Sound, Permitted, Advance, DeleteOne, Run, DeletesOnlyStopped;
    WithoutDeletions(g, []);
    if n < 4 {
      DeletesAreOfStopped(h, deletions, g, n + 1);
      DeletesSafe(h, deletions, g, n + 1);
      SafeRuns(g, Deletes(h, deletions, n + 1));
      assert Run(g, Deletes(h, deletions, n + 1)) == Some(g) by { RunIsAfter(g, Deletes(h, deletions, n + 1)); }
      DeleteOneOnlyStopped(h, g, n, deletions[n]);
      DeletesAppend(g, Deletes(h, deletions, n + 1), DeleteOne(h, n, deletions[n]));
    }
  }

  lemma RunIsAfter(h: History, events: seq<Event>)
    requires Run(h, events).Some?
    ensures Run(h, events) == Some(After(h, events))
  {
  }

  lemma RollbackDeletesOnlyStopped(h: History, deletions: Deletions, late: bool)
    requires Sound(h)
    ensures DeletesOnlyStopped(h, RollbackScript(h, deletions, late))
  {
    hide Safe, After, Deletes, DeletesOnlyStopped, Run, Sound;
    WithoutDeletions(h, []);
    if !Terminal(h) {
      var g := h.(rollback := true);
      var tail := if AllDeleted(h, deletions) && !late then [RollbackDone] else [];
      var begin, ds := BeginRollback(h), Deletes(h, deletions, 0);
      BeginSafe(h);
      SafeRuns(h, begin);
      RunIsAfter(h, begin);
      WithoutDeletions(h, begin);
      DeletesAreOfStopped(h, deletions, g, 0);
      DeletesSafe(h, deletions, g, 0);
      SafeRuns(g, ds);
      RunIsAfter(g, ds);
      WithoutDeletions(g, tail);
      DeletesAppend(h, begin, ds);
      SafeAppend(h, begin, ds);
      RunIsAfter(h, begin + ds);
      DeletesAppend(h, begin + ds, tail);
    }
  }

  lemma {:induction false} StopsDeleteOnlyStopped(h: History, c: Call, n: nat)
    requires c.Abort? && n <= 4
    requires Sound(h) && h.rollback && !Terminal(h)
    requires forall k: Index :: n <= k ==> k in h.stopped
    ensures DeletesOnlyStopped(h, StopsThenRollback(h, c, n))
    decreases n
  {
    hide Safe, RollbackScript, Accepted, Permitted, Advance, Run, DeletesOnlyStopped;
    WithoutDeletions(h, []);
    if n == 0 {
      RollbackDeletesOnlyStopped(h, c.deletions, c.late);
    } else if StopOne(h, n - 1, c.seen[n - 1]).Some? {
      StopOneSafe(h, n - 1, c.seen[n - 1]);
      var events := StopOne(h, n - 1, c.seen[n - 1]).value;
      WithoutDeletions(h, events);
      StopsDeleteOnlyStopped(After(h, events), c, n - 1);
      DeletesAppend(h, events, StopsThenRollback(After(h, events), c, n - 1));
    }
  }

  lemma ScriptDeletesOnlyStopped(c: Call, h: History)
    requires Sound(h)
    ensures DeletesOnlyStopped(h, Script(c, h))
  {
    hide Safe, After, RollbackScript, StopsThenRollback, Run, DeletesOnlyStopped, Sound;
    WithoutDeletions(h, []);
    match c
    case Rollback(deletions, late) => RollbackDeletesOnlyStopped(h, deletions, late);
    case Abort(_, _, _) =>
      if !Terminal(h) {
        BeginSafe(h);
        SafeRuns(h, BeginRollback(h));
        RunIsAfter(h, BeginRollback(h));
        WithoutDeletions(h, BeginRollback(h));
        StopsDeleteOnlyStopped(h.(rollback := true), c, 4);
        DeletesAppend(h, BeginRollback(h), StopsThenRollback(h.(rollback := true), c, 4));
      }
    case _ =>
      NoneDeleted(c, h);
      WithoutDeletions(h, Script(c, h));
  }

  lemma NoneDeleted(c: Call, h: History)
    requires !c.Rollback? && !c.Abort?
    ensures forall k :: 0 <= k < |Script(c, h)| ==> !RecordsDeletion(Script(c, h)[k])
  {
    CreatesDeleteNothing(4, h.crashDone);
    if c.Activate? { StartsDeleteNothing(4, c.epochs); }
    TypesDeleteNothing(4);
  }

  lemma {:induction false} CreatesDeleteNothing(n: nat, crashDone: bool)
    requires n <= 4
    ensures forall k :: 0 <= k < |Creates(n, crashDone)| ==> !RecordsDeletion(Creates(n, crashDone)[k])
  {
    if n > 0 { CreatesDeleteNothing(n - 1, crashDone); }
  }

  lemma {:induction false} StartsDeleteNothing(n: nat, epochs: LiveEpochs)
    requires n <= 4
    ensures forall k :: 0 <= k < |Starts(n, epochs)| ==> !RecordsDeletion(Starts(n, epochs)[k])
  {
    if n > 0 { StartsDeleteNothing(n - 1, epochs); }
  }

  lemma {:induction false} TypesDeleteNothing(n: nat)
    requires n <= 4
    ensures forall k :: 0 <= k < |Types(n)| ==> !RecordsDeletion(Types(n)[k])
  {
    if n > 0 { TypesDeleteNothing(n - 1); }
  }

  lemma {:induction false} DeletesAt(h: History, events: seq<Event>, k: nat)
    requires DeletesOnlyStopped(h, events) && Run(h, events).Some? && k < |events| && RecordsDeletion(events[k])
    ensures
      var g := After(h, events[..k]);
      events[k].i in g.started ==> events[k].i in g.stopped
    decreases k
  {
    hide Permitted, Advance;
    if k == 0 {
      NothingRun(h);
      assert events[..0] == [];
    } else {
      DeletesAt(Advance(h, events[0]), events[1..], k - 1);
      assert events[..k][1..] == events[1..][..k - 1];
      RunPrefix(h, events, k);
    }
  }

  lemma {:induction false} RunPrefix(h: History, events: seq<Event>, k: nat)
    requires Run(h, events).Some? && k <= |events|
    ensures Run(h, events[..k]).Some?
    decreases k
  {
    hide Permitted, Advance;
    if k > 0 {
      RunPrefix(Advance(h, events[0]), events[1..], k - 1);
      assert events[..k][1..] == events[1..][..k - 1];
    }
  }

  /** No driver records the deletion of a service it started before the stop of that service is confirmed. */
  lemma OnlyStoppedServicesAreDeleted(h: History, c: Call, k: nat)
    requires Sound(h) && k < |Script(c, h)| && RecordsDeletion(Script(c, h)[k])
    ensures
      var g := After(h, Script(c, h)[..k]);
      Script(c, h)[k].i in g.started ==> Script(c, h)[k].i in g.stopped
  {
    hide Script, Safe, Run, After, DeletesOnlyStopped, Sound;
    ScriptSafe(c, h);
    SafeRuns(h, Script(c, h));
    ScriptDeletesOnlyStopped(c, h);
    DeletesAt(h, Script(c, h), k);
  }

  /** An uninterrupted commit ends committed exactly when the plan is ready, not deployed locally and not being rolled back. */
  lemma CommitExactlyWhen(h: History)
    requires Sound(h) && !Terminal(h)
    ensures
      var g := After(h, Script(Commit, h));
      if !h.rollback && !h.local && h.ready == All && h.registered == All then g.committed && g.typeDone == All else g == h
  {
    hide After, Types, Safe;
    SafeNothing(h);
    if Script(Commit, h) != [] {
      CommitScriptSafe(h, if h.committing then [] else [CommitBegin], CommitDone);
    }
  }

  /** An uninterrupted rollback ends aborted exactly when nothing started is left unstopped and everything was deleted in time. */
  lemma RollbackExactlyWhen(h: History, deletions: Deletions, late: bool)
    requires Sound(h) && !Terminal(h)
    ensures After(h, Script(Rollback(deletions, late), h)).complete <==>
              !late && h.started <= h.stopped && forall i: Index :: deletions[i].Deleted? || deletions[i].Absent?
  {
    hide Safe, Deletes, Run;
    RollbackScriptSafe(h, deletions, late);
    var script := RollbackScript(h, deletions, late);
    SafeRuns(h, script);
    if !(AllDeleted(h, deletions) && !late) {
      DeletesHaveNoDone(h, deletions, 0);
      NotDoneNotComplete(h, script);
    }
  }

  /** The service manager shows only what the history accounts for. */
  predicate Accounted(h: History, i: Index, o: Observation) {
    match o
    case Running(e) => i in h.started && (h.epochs[i].pid == 0 || h.epochs[i] == e)
    case NotRunning => i in h.started ==> h.epochs[i].pid != 0
  }

  lemma {:induction false} StopsNeedAccounting(h: History, c: Call, n: nat)
    requires c.Abort? && n <= 4
    requires Sound(h) && h.rollback && !Terminal(h)
    requires forall k: Index :: n <= k ==> k in h.stopped
    requires After(h, StopsThenRollback(h, c, n)).complete
    ensures (forall i: Index :: i < n ==> Accounted(h, i, c.seen[i])) && !c.late
    ensures forall i: Index :: c.deletions[i].Deleted? || c.deletions[i].Absent?
    decreases n
  {
    hide Safe, RollbackScript, Accepted, Permitted, Advance, Run, Script;
    if n == 0 {
      RollbackExactlyWhen(h, c.deletions, c.late);
      assert Script(Rollback(c.deletions, c.late), h) == RollbackScript(h, c.deletions, c.late) by { RollbackIsItsScript(h, c.deletions, c.late); }
    } else {
      NothingRun(h);
      var i: Index := n - 1;
      assert StopOne(h, i, c.seen[i]).Some?;
      var first := StopOne(h, i, c.seen[i]).value;
      StopOneSafe(h, i, c.seen[i]);
      var m := After(h, first);
      StopsSafe(m, c, n - 1);
      SafeAppend(h, first, StopsThenRollback(m, c, n - 1));
      StopsNeedAccounting(m, c, n - 1);
    }
  }

  lemma RollbackIsItsScript(h: History, deletions: Deletions, late: bool)
    ensures Script(Rollback(deletions, late), h) == RollbackScript(h, deletions, late)
  {
  }

  /**
   An uninterrupted abort ends aborted exactly when every observation is accounted for by
   the history, everything could be deleted and the deadline was kept.
   */
  lemma AbortExactlyWhen(h: History, c: Call)
    requires Sound(h) && !Terminal(h) && c.Abort?
    ensures After(h, Script(c, h)).complete <==>
              && (forall i: Index :: Accounted(h, i, c.seen[i]))
              && (forall i: Index :: c.deletions[i].Deleted? || c.deletions[i].Absent?) && !c.late
  {
    hide After, Safe, StopsThenRollback, Accepted, Run;
    BeginSafe(h);
    var g := h.(rollback := true);
    StopsSafe(g, c, 4);
    SafeAppend(h, BeginRollback(h), StopsThenRollback(g, c, 4));
    if After(h, Script(c, h)).complete {
      StopsNeedAccounting(g, c, 4);
      assert forall i: Index :: Accounted(g, i, c.seen[i]) == Accounted(h, i, c.seen[i]);
    }
  }

  /** Records the replay accepts although no driver writes them. */
  function UnrecordedStop(): seq<Event> {
    [StartIntent(0), RollbackBegin] + [StopIntent(3), StopDone(3)] + [StopIntent(2), StopDone(2)] +
    [StopIntent(1), StopDone(1)] + [StopIntent(0)]
  }

  /**
   The replay guards alone do not give this: after any registration they accept a stop intent
   for a started service without a recorded process, and then the very record an abort writes
   for that running service is refused.
   */
  lemma ReplayGuardsAreNotEnough(h: History, e: LiveEpoch)
    requires Sound(h) && !h.rollback && !h.committing && !Terminal(h)
    requires h.registered == All && h.started == {}
    ensures
      var r := Run(h, UnrecordedStop());
      && r.Some? && !Terminal(r.value)
      && StopOne(r.value, 0, Running(e)) == Some([Process(0, e.pid, e.birth), StopIntent(0), StopDone(0)])
      && Run(r.value, [Process(0, e.pid, e.birth)]).None?
      && StopOne(r.value, 0, NotRunning).None?
      && Stuck(r.value, 0)
  {
    hide Run;
    UnstartedHasNoEpochs(h);
    var h1 := h.(started := h.started + {0}, rollback := true);
    var h2 := StoppedToo(h1, 3);
    var h3 := StoppedToo(h2, 2);
    var h4 := StoppedToo(h3, 1);
    var t4 := [StopIntent(0)];
    var t3 := [StopIntent(1), StopDone(1)] + t4;
    var t2 := [StopIntent(2), StopDone(2)] + t3;
    var t1 := [StopIntent(3), StopDone(3)] + t2;
    RunPair(h, StartIntent(0), RollbackBegin, t1);
    StopPair(h1, 3, t2);
    StopPair(h2, 2, t3);
    StopPair(h3, 1, t4);
    var h5 := h4.(stopping := h4.stopping + {0});
    RunOne(h4, StopIntent(0));
    RunOne(h5, Process(0, e.pid, e.birth));
    assert Run(h4, t4) == Some(h5);
    assert UnrecordedStop() == [StartIntent(0), RollbackBegin] + t1;
    assert Run(h, UnrecordedStop()) == Some(h5);
  }

  /** Being stopped although it was started and has no recorded process. */
  predicate Stuck(h: History, i: Index) {
    h.rollback && i in h.started && i in h.stopping && i !in h.stopped && h.epochs[i].pid == 0
  }

  lemma StuckStep(h: History, i: Index, e: Event)
    requires Stuck(h, i) && Permitted(h, e)
    ensures Stuck(Advance(h, e), i)
  {
  }

  /** No accepted records get a plan out of it. */
  lemma {:induction false} StuckRun(h: History, i: Index, events: seq<Event>)
    requires Stuck(h, i) && Run(h, events).Some?
    ensures Stuck(Run(h, events).value, i)
    decreases |events|
  {
    hide Stuck, Permitted, Advance;
    if events != [] {
      StuckStep(h, i, events[0]);
      StuckRun(Advance(h, events[0]), i, events[1..]);
    }
  }

  lemma {:induction false} DeletesHaveNoDone(h: History, deletions: Deletions, n: nat)
    requires n <= 4
    ensures RollbackDone !in Deletes(h, deletions, n)
    decreases 4 - n
  {
    if n < 4 {
      DeletesHaveNoDone(h, deletions, n + 1);
    }
  }

  lemma StuckRollback(h: History, i: Index, deletions: Deletions, late: bool)
    requires Stuck(h, i)
    ensures RollbackDone !in RollbackScript(h, deletions, late)
  {
    hide Deletes;
    DeletesHaveNoDone(h, deletions, 0);
  }

  /** The managed stop of a stuck service is refused, by the driver or by the replay of its first record. */
  lemma StuckStop(h: History, i: Index, o: Observation)
    requires Stuck(h, i)
    ensures StopOne(h, i, o).Some? ==> Run(h, StopOne(h, i, o).value).None?
  {
  }

  lemma {:induction false} StuckStops(h: History, i: Index, c: Call, n: nat)
    requires Stuck(h, i) && c.Abort? && i < n <= 4
    ensures RollbackDone !in StopsThenRollback(h, c, n)
    decreases n
  {
    hide Stuck, Run, RollbackScript;
    var o := StopOne(h, n - 1, c.seen[n - 1]);
    if o.Some? {
      assert RollbackDone !in o.value;
      if n - 1 == i {
        StuckStop(h, i, c.seen[i]);
      } else if Run(h, o.value).Some? {
        StuckRun(h, i, o.value);
        StuckStops(Run(h, o.value).value, i, c, n - 1);
      }
    }
  }

  /** No driver ever reports a stuck plan as aborted. */
  lemma StuckScript(h: History, i: Index, c: Call)
    requires Stuck(h, i) && !Terminal(h)
    ensures RollbackDone !in Script(c, h)
  {
    hide RollbackScript, StopsThenRollback, Creates, Starts, Types;
    match c
    case Rollback(deletions, late) => StuckRollback(h, i, deletions, late);
    case Abort(_, _, _) =>
      assert h.(rollback := true) == h;
      StuckStops(h, i, c, 4);
    case _ =>
  }

  lemma {:induction false} NotDoneNotComplete(h: History, events: seq<Event>)
    requires !h.complete && RollbackDone !in events && Run(h, events).Some?
    ensures !Run(h, events).value.complete
    decreases |events|
  {
    if events != [] {
      NotDoneNotComplete(Advance(h, events[0]), events[1..]);
    }
  }

  /** No service is being stopped that was started without a recorded process. */
  predicate Abortable(h: History) {
    forall i: Index :: i in h.stopping && i in h.started ==> h.epochs[i].pid != 0
  }

  /**
   From every history the replay accepts some abort can still end aborted exactly when no
   started service without a recorded process is being stopped.
   */
  lemma AbortPossibleExactlyWhen(h: History)
    requires Accepted(h) && !Terminal(h)
    ensures (exists c: Call :: c.Abort? && After(h, Script(c, h)).complete) <==> Abortable(h)
  {
    hide Script, Run, Terminal, StopOne;
    if Abortable(h) {
      var c := AbortFor(h);
      assert c.Abort? && After(h, Script(c, h)).complete;
    } else {
      var i: Index :| i in h.stopping && i in h.started && h.epochs[i].pid == 0;
      assert Stuck(h, i);
      forall c: Call | c.Abort? ensures !After(h, Script(c, h)).complete {
        StuckScript(h, i, c);
        NotComplete(h);
        if Run(h, Script(c, h)).Some? {
          NotDoneNotComplete(h, Script(c, h));
        }
      }
    }
  }

  lemma NotComplete(h: History)
    requires !Terminal(h)
    ensures !h.complete
  {
  }

  /** Observations that fit the history, and a service manager that deletes everything in time. */
  lemma AbortFor(h: History) returns (c: Call)
    requires Accepted(h) && !Terminal(h) && Abortable(h)
    ensures c.Abort? && After(h, Script(c, h)).complete
  {
    hide Script, After, Accepted;
    var seen: Observations := seq(4, i requires 0 <= i < 4 => SeenFor(h, i));
    c := Abort(seen, [Absent, Absent, Absent, Absent], false);
    assert Sound(h);
    AbortCompletes(h, c);
  }

  function SeenFor(h: History, i: Index): Observation {
    if i in h.started && h.epochs[i].pid == 0 then Running(Epoch(1, 1)) else NotRunning
  }

  function StoppedToo(h: History, i: Index): History {
    h.(stopping := h.stopping + {i}, stopped := h.stopped + {i})
  }

  lemma StopPair(h: History, i: Index, rest: seq<Event>)
    requires h.rollback && !Terminal(h) && i !in h.started && Above(i) <= h.stopped
    ensures Run(h, [StopIntent(i), StopDone(i)] + rest) == Run(StoppedToo(h, i), rest)
  {
    hide Run;
    RunPair(h, StopIntent(i), StopDone(i), rest);
  }

  lemma RunOne(h: History, a: Event)
    ensures Run(h, [a]) == if Permitted(h, a) then Some(Advance(h, a)) else None
  {
    hide Permitted, Advance;
    assert [a][1..] == [];
    if Permitted(h, a) {
      assert Run(Advance(h, a), []) == Some(Advance(h, a));
    }
  }

  lemma UnstartedHasNoEpochs(h: History)
    requires Sound(h) && h.started == {}
    ensures forall i: Index :: h.epochs[i].pid == 0
  {
  }

  lemma RunPair(h: History, a: Event, b: Event, rest: seq<Event>)
    requires Permitted(h, a) && Permitted(Advance(h, a), b)
    ensures Run(h, [a, b] + rest) == Run(Advance(Advance(h, a), b), rest)
  {
    hide Permitted, Advance;
    assert ([a, b] + rest)[1..] == [b] + rest;
    assert ([b] + rest)[1..] == rest;
  }
}

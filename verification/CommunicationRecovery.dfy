/**
 The one-shot communication recovery executor (tools/l4common/communication_recovery.c).

 The adapter's clock and callbacks are a tape: what the n-th use of the adapter answers.
 A run records every use of the adapter in a trace, and the results are statements about
 that trace.
 */
module CommunicationRecovery {
  import opened StoreBytes

  datatype Op =
    | Verify | WorkerExit | Lock
    | StopProxy | RestoreProxy | StartProxy | ProbeProxy | ProxyChannels
    | StopMosquitto | RestoreMosquitto | StartMosquitto | ProbeMosquitto | FinalBarrier

  datatype Budget = Budget(verify: U32, worker: U32, lock: U32, proxy: U32, brokerPrepare: U32, mosquitto: U32, channel: U32, total: U32)

  datatype Event = Clock(at: nat) | Call(op: Op, given: nat, returned: bool) | Unlock

  datatype Outcome = Failed | Verified | Unconfirmed

  datatype Result = Result(outcome: Outcome, error: nat, completed: nat)

  /** What the adapter answers when it is used with that many events behind it. */
  datatype Adapter = Adapter(clock: nat -> U64, answer: nat -> bool, code: nat -> nat)

  const ERROR_SUCCESS := 0
  const ERROR_NOT_READY := 21
  const ERROR_INVALID_PARAMETER := 87
  const ERROR_ALREADY_EXISTS := 183
  const ERROR_ARITHMETIC_OVERFLOW := 534
  const ERROR_TIMEOUT := 1460

  const DWORD_LIMIT: nat := 0x1_0000_0000

  predicate Small(ms: nat) {
    100 <= ms <= 300000
  }

  function Sum(b: Budget): nat {
    2 * b.verify + b.worker + b.lock + b.proxy + b.brokerPrepare + b.mosquitto + 2 * b.channel
  }

  predicate BudgetValid(b: Budget) {
    && Small(b.verify) && Small(b.worker) && Small(b.lock) && Small(b.proxy) && Small(b.brokerPrepare)
    && b.mosquitto == 300000 && Small(b.channel)
    && Sum(b) <= b.total <= 3600000
  }

  /** What makes a budget valid, with every figure written out. */
  lemma BudgetInFigures(b: Budget)
    ensures BudgetValid(b) <==>
              && 100 <= b.verify <= 300000 && 100 <= b.worker <= 300000 && 100 <= b.lock <= 300000 && 100 <= b.proxy <= 300000
              && 100 <= b.brokerPrepare <= 300000 && b.mosquitto == 300000 && 100 <= b.channel <= 300000 && b.total <= 3600000
              && b.total >= b.verify + b.verify + b.worker + b.lock + b.proxy + b.brokerPrepare + b.mosquitto + b.channel + b.channel
  {
  }

  // ------------------------------------------------------------------ the plan of a run

  const STEPS: nat := 10
  const FIRST_STEP: nat := 4

  /** The callbacks of a complete run in order. */
  const Planned: seq<Op> :=
    [Verify, WorkerExit, Lock, Verify,
     StopProxy, RestoreProxy, StartProxy, ProbeProxy, ProxyChannels,
     StopMosquitto, RestoreMosquitto, StartMosquitto, ProbeMosquitto, FinalBarrier]

  /** Whether the n-th callback opens a phase of its own. */
  predicate Opens(n: nat) {
    n <= 4 || n == 8 || n == 9 || n == 11 || n == 13
  }

  /** The allotment of the phase that the n-th callback belongs to. */
  function Allotment(b: Budget, n: nat): nat {
    if n == 0 || n == 3 then b.verify
    else if n == 1 then b.worker
    else if n == 2 then b.lock
    else if n < 8 then b.proxy
    else if n == 8 || n == 13 then b.channel
    else if n < 11 then b.brokerPrepare
    else b.mosquitto
  }

  /** The allotments of all phases opened before the n-th callback. */
  function Before(b: Budget, n: nat): nat {
    if n == 0 then 0 else Before(b, n - 1) + (if Opens(n - 1) then Allotment(b, n - 1) else 0)
  }

  lemma {:induction false} BeforeGrows(b: Budget, m: nat, n: nat)
    requires m <= n
    ensures Before(b, m) <= Before(b, n)
    decreases n - m
  {
    if m < n { BeforeGrows(b, m, n - 1); }
  }

  /** The phases together are what the budget check sums up. */
  lemma BeforeAll(b: Budget)
    ensures Before(b, |Planned|) == Sum(b)
  {
    assert Before(b, 1) == b.verify;
    assert Before(b, 2) == b.verify + b.worker;
    assert Before(b, 3) == b.verify + b.worker + b.lock;
    assert Before(b, 4) == 2 * b.verify + b.worker + b.lock;
    assert Before(b, 5) == Before(b, 4) + b.proxy;
    assert Before(b, 6) == Before(b, 5);
    assert Before(b, 7) == Before(b, 6);
    assert Before(b, 8) == Before(b, 7);
    assert Before(b, 9) == Before(b, 8) + b.channel;
    assert Before(b, 10) == Before(b, 9) + b.brokerPrepare;
    assert Before(b, 11) == Before(b, 10);
    assert Before(b, 12) == Before(b, 11) + b.mosquitto;
    assert Before(b, 13) == Before(b, 12);
  }

  // ------------------------------------------------------------------ reading a trace

  function Called(tr: seq<Event>): seq<Op> {
    if tr == [] then []
    else
      var front, last := Called(tr[..|tr| - 1]), tr[|tr| - 1];
      if last.Call? then front + [last.op] else front
  }

  /** The last clock reading. */
  function LastClock(tr: seq<Event>): nat {
    if tr == [] then 0
    else if tr[|tr| - 1].Clock? then tr[|tr| - 1].at
    else LastClock(tr[..|tr| - 1])
  }

  predicate AllTrue(tr: seq<Event>) {
    tr == [] || (AllTrue(tr[..|tr| - 1]) && (tr[|tr| - 1].Call? ==> tr[|tr| - 1].returned))
  }

  /** Whether the lock callback returned true. */
  predicate LockTaken(tr: seq<Event>) {
    tr != [] && (LockTaken(tr[..|tr| - 1]) || (tr[|tr| - 1].Call? && tr[|tr| - 1].op == Lock && tr[|tr| - 1].returned))
  }

  predicate NeverUnlocked(tr: seq<Event>) {
    tr == [] || (NeverUnlocked(tr[..|tr| - 1]) && !tr[|tr| - 1].Unlock?)
  }

  /** A reading that fits a clock which moves only inside callbacks that return in time. */
  predicate ReadingFits(tr: seq<Event>, at: nat) {
    if tr == [] then true
    else if tr[|tr| - 1].Call? then LastClock(tr) <= at < LastClock(tr) + tr[|tr| - 1].given
    else at == LastClock(tr)
  }

  predicate WellPaced(tr: seq<Event>) {
    tr == [] || (WellPaced(tr[..|tr| - 1]) && (tr[|tr| - 1].Clock? ==> ReadingFits(tr[..|tr| - 1], tr[|tr| - 1].at)))
  }

  predicate Monotone(tr: seq<Event>) {
    tr == [] || (Monotone(tr[..|tr| - 1]) && (tr[|tr| - 1].Clock? ==> LastClock(tr[..|tr| - 1]) <= tr[|tr| - 1].at))
  }

  /** The clock reading at which the current phase's first callback was made. */
  function OpenedAt(tr: seq<Event>): nat {
    if tr == [] then 0
    else if tr[|tr| - 1].Call? && Opens(|Called(tr)| - 1) then LastClock(tr[..|tr| - 1])
    else OpenedAt(tr[..|tr| - 1])
  }

  /** Every callback was given all that its phase had left, nothing being cut off by the total. */
  predicate FullPhases(tr: seq<Event>, b: Budget) {
    tr == [] ||
    (FullPhases(tr[..|tr| - 1], b) &&
     (tr[|tr| - 1].Call? ==> LastClock(tr) + tr[|tr| - 1].given == OpenedAt(tr) + Allotment(b, |Called(tr)| - 1)))
  }

  /** No callback was given nothing, or time beyond its phase's allotment or beyond the total. */
  predicate WithinLimits(tr: seq<Event>, b: Budget, start: nat) {
    tr == [] ||
    (WithinLimits(tr[..|tr| - 1], b, start) &&
     (tr[|tr| - 1].Call? ==>
        && 0 < tr[|tr| - 1].given
        && (Monotone(tr) ==> LastClock(tr) + tr[|tr| - 1].given <= start + b.total &&
                             tr[|tr| - 1].given <= Allotment(b, |Called(tr)| - 1))))
  }

  lemma AfterClock(tr: seq<Event>, at: nat)
    ensures
      var u := tr + [Clock(at)];
      && Called(u) == Called(tr) && LastClock(u) == at && OpenedAt(u) == OpenedAt(tr)
      && AllTrue(u) == AllTrue(tr) && LockTaken(u) == LockTaken(tr) && NeverUnlocked(u) == NeverUnlocked(tr)
      && WellPaced(u) == (WellPaced(tr) && ReadingFits(tr, at)) && Monotone(u) == (Monotone(tr) && LastClock(tr) <= at)
      && (forall b :: FullPhases(u, b) == FullPhases(tr, b))
      && (forall b, start :: WithinLimits(u, b, start) == WithinLimits(tr, b, start))
  {
    assert (tr + [Clock(at)])[..|tr|] == tr;
  }

  lemma AfterCall(tr: seq<Event>, op: Op, given: nat, returned: bool, b: Budget, start: nat)
    ensures
      var u := tr + [Call(op, given, returned)];
      && Called(u) == Called(tr) + [op] && LastClock(u) == LastClock(tr)
      && OpenedAt(u) == (if Opens(|Called(tr)|) then LastClock(tr) else OpenedAt(tr))
      && AllTrue(u) == (AllTrue(tr) && returned) && LockTaken(u) == (LockTaken(tr) || (op == Lock && returned))
      && NeverUnlocked(u) == NeverUnlocked(tr)
      && WellPaced(u) == WellPaced(tr) && Monotone(u) == Monotone(tr)
      && FullPhases(u, b) == (FullPhases(tr, b) && LastClock(tr) + given == OpenedAt(u) + Allotment(b, |Called(tr)|))
      && WithinLimits(u, b, start) ==
           (WithinLimits(tr, b, start) && 0 < given &&
            (Monotone(tr) ==> LastClock(tr) + given <= start + b.total && given <= Allotment(b, |Called(tr)|)))
  {
    assert (tr + [Call(op, given, returned)])[..|tr|] == tr;
  }

  lemma AfterUnlock(tr: seq<Event>, b: Budget, start: nat)
    ensures
      var u := tr + [Unlock];
      && Called(u) == Called(tr) && LastClock(u) == LastClock(tr)
      && AllTrue(u) == AllTrue(tr) && LockTaken(u) == LockTaken(tr)
      && WellPaced(u) == WellPaced(tr) && FullPhases(u, b) == FullPhases(tr, b)
      && WithinLimits(u, b, start) == WithinLimits(tr, b, start)
  {
    assert (tr + [Unlock])[..|tr|] == tr;
  }

  lemma {:induction false} PacedIsMonotone(tr: seq<Event>)
    requires WellPaced(tr)
    ensures Monotone(tr)
  {
    if tr != [] {
      PacedIsMonotone(tr[..|tr| - 1]);
    }
  }

  // ------------------------------------------------------------------ deadlines

  /** left: the remaining time, cast to 32 bits. */
  function Left(now: nat, deadline: nat): nat {
    if now < deadline then (deadline - now) % DWORD_LIMIT else 0
  }

  /** phase: the end of a phase that starts now, cut off by the total; the sum may wrap. */
  function PhaseEnd(now: U64, total: U64, ms: nat): (end: U64)
    requires ms <= 300000
    ensures end <= total && end <= now + ms
    ensures now + ms <= total ==> end == now + ms
  {
    var end := (now + ms) % U64_LIMIT;
    if end < now || end > total then total else end
  }

  // ------------------------------------------------------------------ what holds during a run

  predicate NoOverflow(b: Budget, start: nat) {
    start + b.total < U64_LIMIT
  }

  /** The first `n` planned callbacks have been made, or the run has failed by then. */
  ghost predicate Running(tr: seq<Event>, b: Budget, start: nat, n: nat, ok: bool) {
    && tr != [] && tr[|tr| - 1].Clock? && n <= |Planned|
    && Called(tr) <= Planned && |Called(tr)| <= n && NeverUnlocked(tr)
    && (ok ==> |Called(tr)| == n && AllTrue(tr) && NoOverflow(b, start))
    && WithinLimits(tr, b, start)
    && (Monotone(tr) ==> start <= LastClock(tr))
    && (WellPaced(tr) ==>
          && FullPhases(tr, b) && start <= LastClock(tr) <= start + Before(b, n)
          && (NoOverflow(b, start) && !ok ==> !AllTrue(tr)))
  }

  /** `end` is the deadline of the n-th callback. */
  ghost predicate InPhase(tr: seq<Event>, b: Budget, start: nat, n: nat, end: nat) {
    && end <= start + b.total
    && (Monotone(tr) ==> end <= LastClock(tr) + Allotment(b, n))
    && (WellPaced(tr) ==>
          && LastClock(tr) < end <= start + Before(b, n + 1)
          && end == (if Opens(n) then LastClock(tr) else OpenedAt(tr)) + Allotment(b, n))
  }

  lemma AllotmentSmall(b: Budget, n: nat)
    requires BudgetValid(b)
    ensures 100 <= Allotment(b, n) <= 300000
  {
  }

  /** Any clock reading outside a callback. */
  lemma Reading(tr: seq<Event>, b: Budget, start: nat, n: nat, ok: bool, at: nat)
    requires Running(tr, b, start, n, ok)
    ensures Running(tr + [Clock(at)], b, start, n, ok)
    ensures forall end :: InPhase(tr, b, start, n, end) ==> InPhase(tr + [Clock(at)], b, start, n, end)
  {
    hide Called, LastClock, AllTrue, NeverUnlocked, WellPaced, Monotone, OpenedAt, FullPhases, WithinLimits, Before, Allotment;
    AfterClock(tr, at);
  }

  /** A phase is opened. */
  lemma Opening(tr: seq<Event>, b: Budget, start: nat, n: nat, ok: bool, at: U64)
    requires BudgetValid(b) && Running(tr, b, start, n, ok) && n < |Planned| && Opens(n)
    ensures Running(tr + [Clock(at)], b, start, n, ok)
    ensures
      Allotment(b, n) <= 300000 &&
      (ok ==> InPhase(tr + [Clock(at)], b, start, n, PhaseEnd(at, start + b.total, Allotment(b, n))))
  {
    hide Called, AllTrue, NeverUnlocked, WellPaced, Monotone, OpenedAt, FullPhases, WithinLimits, LastClock, PhaseEnd, Allotment;
    AllotmentSmall(b, n);
    Reading(tr, b, start, n, ok, at);
    AfterClock(tr, at);
    BeforeGrows(b, n + 1, |Planned|);
    BeforeAll(b);
  }

  /** The deadline has passed before the callback could be made. */
  lemma TimedOut(tr: seq<Event>, b: Budget, start: nat, n: nat, end: nat)
    requires BudgetValid(b) && n < |Planned|
    requires Running(tr, b, start, n, true) && InPhase(tr, b, start, n, end) && Left(LastClock(tr), end) == 0
    ensures !WellPaced(tr) && Running(tr, b, start, n, false)
  {
    hide Called, AllTrue, NeverUnlocked, WellPaced, Monotone, OpenedAt, FullPhases, WithinLimits, LastClock, Before, Allotment;
    AllotmentSmall(b, n);
    if WellPaced(tr) {
      PacedIsMonotone(tr);
      assert false;
    }
  }

  lemma Later(tr: seq<Event>, b: Budget, start: nat, n: nat)
    requires Running(tr, b, start, n, false) && n < |Planned|
    ensures Running(tr, b, start, n + 1, false)
  {
    hide Called, AllTrue, NeverUnlocked, WellPaced, Monotone, OpenedAt, FullPhases, WithinLimits, LastClock, Allotment;
    BeforeGrows(b, n, n + 1);
  }

  /** The n-th callback, with all that is left of its phase, and the reading after it. */
  lemma Calling(tr: seq<Event>, b: Budget, start: nat, n: nat, end: nat, returned: bool, at: nat)
    requires BudgetValid(b) && n < |Planned|
    requires Running(tr, b, start, n, true) && InPhase(tr, b, start, n, end) && Left(LastClock(tr), end) > 0
    ensures
      var u := tr + [Call(Planned[n], Left(LastClock(tr), end), returned), Clock(at)];
      var ok := returned && Left(at, end) > 0;
      && Running(u, b, start, n + 1, ok)
      && (ok && n + 1 < |Planned| && !Opens(n + 1) ==> InPhase(u, b, start, n + 1, end))
      && LockTaken(u) == (LockTaken(tr) || (n == 2 && returned))
  {
    hide Called, AllTrue, NeverUnlocked, WellPaced, Monotone, OpenedAt, FullPhases, WithinLimits, LastClock;
    var given := Left(LastClock(tr), end);
    var m := tr + [Call(Planned[n], given, returned)];
    var u := tr + [Call(Planned[n], given, returned), Clock(at)];
    assert u == m + [Clock(at)];
    AfterCall(tr, Planned[n], given, returned, b, start);
    AfterClock(m, at);
    AllotmentSmall(b, n);
    if Monotone(tr) {
      assert given == end - LastClock(tr);
    }
    if WellPaced(u) {
      PacedIsMonotone(tr);
    }
  }

  // ------------------------------------------------------------------ the executor

  datatype Checked = Checked(trace: seq<Event>, ok: bool, error: nat, returned: bool)

  /** One callback with the time that is left of its phase, checked again afterwards. */
  method Invoke(a: Adapter, b: Budget, start: nat, n: nat, end: nat, tr: seq<Event>) returns (c: Checked)
    requires BudgetValid(b) && n < |Planned|
    requires Running(tr, b, start, n, true) && InPhase(tr, b, start, n, end) && Left(LastClock(tr), end) > 0
    ensures Running(c.trace, b, start, n + 1, c.ok)
    ensures c.ok && n + 1 < |Planned| && !Opens(n + 1) ==> InPhase(c.trace, b, start, n + 1, end)
    ensures LockTaken(c.trace) == (LockTaken(tr) || (n == 2 && c.returned))
    ensures c.ok <==> c.error == ERROR_SUCCESS
    ensures tr <= c.trace
  {
    hide Called, AllTrue, LockTaken, NeverUnlocked, WellPaced, Monotone, OpenedAt, FullPhases, WithinLimits, LastClock, Running, InPhase, Left;
    var returned := a.answer(|tr|);
    var code := a.code(|tr|);
    var now := a.clock(|tr| + 1);
    Calling(tr, b, start, n, end, returned, now);
    var trace := tr + [Call(Planned[n], Left(LastClock(tr), end), returned), Clock(now)];
    if Left(now, end) == 0 {
      return Checked(trace, false, ERROR_TIMEOUT, returned);
    }
    if !returned {
      return Checked(trace, false, if code != 0 then code else ERROR_NOT_READY, returned);
    }
    return Checked(trace, true, ERROR_SUCCESS, returned);
  }

  /** A callback outside the step loop: checked even when nothing was left to give. */
  method Guard(a: Adapter, b: Budget, start: nat, n: nat, end: nat, tr: seq<Event>) returns (c: Checked)
    requires BudgetValid(b) && n < |Planned|
    requires Running(tr, b, start, n, true) && InPhase(tr, b, start, n, end)
    ensures Running(c.trace, b, start, n + 1, c.ok)
    ensures LockTaken(c.trace) == (LockTaken(tr) || (n == 2 && c.returned))
    ensures c.ok <==> c.error == ERROR_SUCCESS
    ensures tr <= c.trace
  {
    hide Called, AllTrue, LockTaken, NeverUnlocked, WellPaced, Monotone, OpenedAt, FullPhases, WithinLimits, LastClock, Running, InPhase, Left;
    var now := a.clock(|tr|);
    Reading(tr, b, start, n, true, now);
    AfterClock(tr, now);
    var trace := tr + [Clock(now)];
    if Left(now, end) == 0 {
      TimedOut(trace, b, start, n, end);
      Later(trace, b, start, n);
      now := a.clock(|trace|);
      Reading(trace, b, start, n + 1, false, now);
      AfterClock(trace, now);
      return Checked(trace + [Clock(now)], false, if Left(now, end) == 0 then ERROR_TIMEOUT else ERROR_NOT_READY, false);
    }
    c := Invoke(a, b, start, n, end, trace);
  }

  /** phase: a new deadline for the n-th callback. */
  method Phase(a: Adapter, b: Budget, start: U64, total: U64, n: nat, tr: seq<Event>, ghost ok: bool)
    returns (end: U64, trace: seq<Event>)
    requires BudgetValid(b) && Running(tr, b, start, n, ok) && n < |Planned| && Opens(n)
    requires ok ==> total == start + b.total
    ensures Running(trace, b, start, n, ok) && (ok ==> InPhase(trace, b, start, n, end))
    ensures LockTaken(trace) == LockTaken(tr) && tr <= trace
  {
    hide Called, AllTrue, LockTaken, NeverUnlocked, WellPaced, Monotone, OpenedAt, FullPhases, WithinLimits, LastClock, Running, InPhase,
      BudgetValid, PhaseEnd, Allotment;
    var now := a.clock(|tr|);
    Opening(tr, b, start, n, ok, now);
    AfterClock(tr, now);
    return PhaseEnd(now, total, Allotment(b, n)), tr + [Clock(now)];
  }

  /** One of the four guarded callbacks before the steps; its phase is opened even after a failure. */
  method Block(a: Adapter, b: Budget, start: U64, total: U64, n: nat, before: Checked) returns (c: Checked)
    requires BudgetValid(b) && Running(before.trace, b, start, n, before.ok) && n < FIRST_STEP
    requires before.ok ==> total == start + b.total
    requires before.ok <==> before.error == ERROR_SUCCESS
    ensures Running(c.trace, b, start, n + 1, c.ok) && (c.ok ==> before.ok)
    ensures LockTaken(c.trace) == (LockTaken(before.trace) || (n == 2 && c.returned))
    ensures c.ok <==> c.error == ERROR_SUCCESS
    ensures before.trace <= c.trace
  {
    hide Called, AllTrue, LockTaken, NeverUnlocked, WellPaced, Monotone, OpenedAt, FullPhases, WithinLimits, LastClock, Running, InPhase,
      BudgetValid;
    var end, trace := Phase(a, b, start, total, n, before.trace, before.ok);
    if before.ok {
      c := Guard(a, b, start, n, end, trace);
    } else {
      Later(trace, b, start, n);
      c := Checked(trace, false, before.error, false);
    }
  }

  datatype Progress = Progress(trace: seq<Event>, ok: bool, error: nat, completed: nat, unconfirmed: bool)

  /** The ten steps; a channel check, the broker's stop and the broker's start open new phases. */
  method Steps(a: Adapter, b: Budget, start: U64, total: U64, before: Checked) returns (p: Progress)
    requires BudgetValid(b) && Running(before.trace, b, start, FIRST_STEP, before.ok)
    requires before.ok ==> total == start + b.total
    requires before.ok <==> before.error == ERROR_SUCCESS
    ensures exists n: nat :: n <= |Planned| && Running(p.trace, b, start, n, p.ok)
    ensures p.ok ==> Running(p.trace, b, start, |Planned|, true)
    ensures LockTaken(p.trace) == LockTaken(before.trace)
    ensures p.ok <==> p.error == ERROR_SUCCESS
    ensures p.ok <==> p.completed == STEPS
    ensures p.unconfirmed <==> p.completed == STEPS - 1
    ensures before.trace <= p.trace
  {
    hide Called, AllTrue, LockTaken, NeverUnlocked, WellPaced, Monotone, OpenedAt, FullPhases, WithinLimits, LastClock, Running, InPhase, Left,
      BudgetValid;
    var end, trace := Phase(a, b, start, total, FIRST_STEP, before.trace, before.ok);
    var ok, error, completed, unconfirmed := before.ok, before.error, 0, false;
    var i := 0;
    while ok && i < STEPS
      invariant i <= STEPS && LockTaken(trace) == LockTaken(before.trace) && before.trace <= trace
      invariant Running(trace, b, start, FIRST_STEP + i, ok)
      invariant ok ==> total == start + b.total && completed == i && !unconfirmed
      invariant ok && i < STEPS && (i == 0 || !Opens(FIRST_STEP + i)) ==> InPhase(trace, b, start, FIRST_STEP + i, end)
      invariant ok <==> error == ERROR_SUCCESS
      invariant !ok ==> completed < STEPS && (unconfirmed <==> completed == STEPS - 1)
      decreases STEPS - i
    {
      var n := FIRST_STEP + i;
      if i == 4 || i == 9 || i == 5 || i == 7 {
        end, trace := Phase(a, b, start, total, n, trace, ok);
      }
      var now := a.clock(|trace|);
      Reading(trace, b, start, n, true, now);
      AfterClock(trace, now);
      trace := trace + [Clock(now)];
      if Left(now, end) == 0 {
        TimedOut(trace, b, start, n, end);
        return Progress(trace, false, ERROR_TIMEOUT, completed, i == 9);
      }
      var c := Invoke(a, b, start, n, end, trace);
      trace, ok, error := c.trace, c.ok, c.error;
      if ok {
        completed := completed + 1;
      } else if i == 9 {
        unconfirmed := true;
      }
      i := i + 1;
    }
    return Progress(trace, ok, error, completed, unconfirmed);
  }

  /** What every run guarantees about its trace and its result. */
  ghost predicate Executed(b: Budget, start: nat, trace: seq<Event>, r: Result) {
    // the callbacks are made in order, each at most once
    && Called(trace) <= Planned
    // the lock is given back exactly once, at the very end, and exactly when it was taken
    && trace != [] && NeverUnlocked(trace[..|trace| - 1])
    && (trace[|trace| - 1].Unlock? <==> LockTaken(trace))
    // the outcome says how far the run got
    && (r.outcome == Verified <==> r.completed == STEPS) && (r.outcome == Unconfirmed <==> r.completed == STEPS - 1)
    && (r.outcome == Verified <==> r.error == ERROR_SUCCESS)
    && (r.outcome == Verified ==> Called(trace) == Planned && AllTrue(trace))
    // under any clock that does not go back nothing is lost in the narrowing cast
    && WithinLimits(trace, b, start)
    // when callbacks keep their time, no phase is cut off and only a callback's answer can fail the run
    && (WellPaced(trace) && NoOverflow(b, start) ==>
          && FullPhases(trace, b)
          && start <= LastClock(trace) <= start + Sum(b) <= start + b.total
          && (r.outcome == Verified <==> AllTrue(trace)))
  }

  /** The part of the executor after the attempt was claimed. */
  method Execute(a: Adapter, b: Budget) returns (r: Result, trace: seq<Event>)
    requires BudgetValid(b)
    ensures Executed(b, a.clock(0), trace, r)
    ensures trace != [] && trace[0] == Clock(a.clock(0))
  {
    hide Called, AllTrue, LockTaken, NeverUnlocked, WellPaced, Monotone, OpenedAt, FullPhases, WithinLimits, LastClock, Running, InPhase,
      BudgetValid;
    var start := a.clock(0);
    var total := (start + b.total) % U64_LIMIT;
    var fits := total >= start;
    Wraps(b, start);
    Started(b, start);
    var c := Checked([Clock(start)], fits, if fits then ERROR_SUCCESS else ERROR_ARITHMETIC_OVERFLOW, false);
    c := Block(a, b, start, total, 0, c);
    c := Block(a, b, start, total, 1, c);
    c := Block(a, b, start, total, 2, c);
    var locked := c.returned;
    c := Block(a, b, start, total, 3, c);
    var p := Steps(a, b, start, total, c);
    trace := p.trace;
    if locked {
      trace := trace + [Unlock];
    }
    r := Result(if p.ok then Verified else if p.unconfirmed then Unconfirmed else Failed, p.error, p.completed);
    Finished(b, start, p, locked);
  }

  lemma Wraps(b: Budget, start: U64)
    requires BudgetValid(b)
    ensures
      var total := (start + b.total) % U64_LIMIT;
      (total >= start <==> NoOverflow(b, start)) && (total >= start ==> total == start + b.total)
  {
  }

  lemma Started(b: Budget, start: nat)
    ensures Running([Clock(start)], b, start, 0, NoOverflow(b, start)) && !LockTaken([Clock(start)])
  {
    AfterClock([], start);
  }

  lemma Finished(b: Budget, start: nat, p: Progress, locked: bool)
    requires BudgetValid(b) && locked == LockTaken(p.trace)
    requires exists n: nat :: n <= |Planned| && Running(p.trace, b, start, n, p.ok)
    requires p.ok ==> Running(p.trace, b, start, |Planned|, true)
    requires (p.ok <==> p.error == ERROR_SUCCESS) && (p.ok <==> p.completed == STEPS)
    requires p.unconfirmed <==> p.completed == STEPS - 1
    ensures
      Executed(b, start, if locked then p.trace + [Unlock] else p.trace,
               Result(if p.ok then Verified else if p.unconfirmed then Unconfirmed else Failed, p.error, p.completed))
  {
    hide Called, AllTrue, LockTaken, WellPaced, Monotone, OpenedAt, FullPhases, WithinLimits, LastClock, Before;
    var n: nat :| n <= |Planned| && Running(p.trace, b, start, n, p.ok);
    BeforeGrows(b, n, |Planned|);
    BeforeAll(b);
    AfterUnlock(p.trace, b, start);
    assert (p.trace + [Unlock])[..|p.trace|] == p.trace;
  }

  // ------------------------------------------------------------------ one-shot attempts

  datatype UpdateState = UpdateState(window: nat, generation: nat, sequence: nat, deadline: nat, owner: seq<char>)

  const COMMUNICATION_WINDOW: nat := 1

  predicate DashAt(i: nat) {
    i == 8 || i == 13 || i == 18 || i == 23
  }

  predicate LowerHex(c: char) {
    '0' <= c <= '9' || 'a' <= c <= 'f'
  }

  /** A lower-case UUID that is not nil, padded with zeros to 40 characters. */
  predicate OwnerValid(owner: seq<char>) {
    && |owner| == 40 && owner[36] == owner[37] == owner[38] == owner[39] == '\0'
    && (forall i :: 0 <= i < 36 ==> if DashAt(i) then owner[i] == '-' else LowerHex(owner[i]))
    && (exists i :: 0 <= i < 36 && !DashAt(i) && owner[i] != '0')
  }

  predicate StateValid(s: UpdateState) {
    s.window == COMMUNICATION_WINDOW && s.generation > 0 && s.sequence > 0 && s.deadline > 0 && OwnerValid(s.owner)
  }

  /** valid: one pass over the owner. */
  method CheckState(s: UpdateState) returns (ok: bool)
    requires |s.owner| == 40
    ensures ok <==> StateValid(s)
  {
    if s.window != COMMUNICATION_WINDOW || s.generation == 0 || s.sequence == 0 || s.deadline == 0 ||
       s.owner[36] != '\0' || s.owner[37] != '\0' || s.owner[38] != '\0' || s.owner[39] != '\0' {
      return false;
    }
    var nonzero := false;
    for i := 0 to 36
      invariant forall k :: 0 <= k < i ==> if DashAt(k) then s.owner[k] == '-' else LowerHex(s.owner[k])
      invariant nonzero <==> exists k :: 0 <= k < i && !DashAt(k) && s.owner[k] != '0'
    {
      var c := s.owner[i];
      if DashAt(i) {
        if c != '-' {
          return false;
        }
      } else if LowerHex(c) {
        if c != '0' {
          nonzero := true;
        }
      } else {
        return false;
      }
    }
    return nonzero;
  }

  class Attempt {
    var spent: bool

    constructor ()
      ensures !spent
    {
      spent := false;
    }

    /**
     Unusable input and a call before the deadline leave the attempt as it was; a spent
     attempt runs nothing; otherwise the attempt is spent and exactly one run is made.
     */
    method Recover(s: UpdateState, b: Budget, booted: bool, utc: nat, a: Adapter) returns (r: Result, trace: seq<Event>)
      requires |s.owner| == 40
      modifies this
      ensures
        if !StateValid(s) || !BudgetValid(b) then
          r == Result(Failed, ERROR_INVALID_PARAMETER, 0) && trace == [] && spent == old(spent)
        else if !booted && utc < s.deadline then
          r == Result(Failed, ERROR_NOT_READY, 0) && trace == [] && spent == old(spent)
        else
          && spent
          && if old(spent) then r == Result(Failed, ERROR_ALREADY_EXISTS, 0) && trace == []
             else Executed(b, a.clock(0), trace, r)
    {
      var usable := CheckState(s);
      if !usable || !BudgetValid(b) {
        return Result(Failed, ERROR_INVALID_PARAMETER, 0), [];
      }
      if !booted && utc < s.deadline {
        return Result(Failed, ERROR_NOT_READY, 0), [];
      }
      if spent {
        return Result(Failed, ERROR_ALREADY_EXISTS, 0), [];
      }
      spent := true;
      r, trace := Execute(a, b);
    }
  }

  // ------------------------------------------------------------------ what the budget buys

  /** The budget that each callback draws on. */
  function OpBudget(b: Budget, op: Op): nat {
    match op
    case Verify => b.verify
    case WorkerExit => b.worker
    case Lock => b.lock
    case StopProxy | RestoreProxy | StartProxy | ProbeProxy => b.proxy
    case ProxyChannels | FinalBarrier => b.channel
    case StopMosquitto | RestoreMosquitto => b.brokerPrepare
    case StartMosquitto | ProbeMosquitto => b.mosquitto
  }

  /** Callbacks that share a budget with the one before them. */
  predicate Continues(op: Op) {
    op.RestoreProxy? || op.StartProxy? || op.ProbeProxy? || op.RestoreMosquitto? || op.ProbeMosquitto?
  }

  lemma PlannedBudgets(b: Budget, n: nat)
    requires n < |Planned|
    ensures Allotment(b, n) == OpBudget(b, Planned[n]) && (Opens(n) <==> !Continues(Planned[n]))
  {
  }

  /**
   In a run whose callbacks keep their time, every callback is given its own budget in
   full, less what earlier callbacks of the same budget have used.
   */
  lemma EveryCallbackGetsItsBudget(b: Budget, tr: seq<Event>, k: nat)
    requires FullPhases(tr, b) && Called(tr) <= Planned && k < |tr| && tr[k].Call?
    ensures tr[k].given ==
              OpBudget(b, tr[k].op) - (if Continues(tr[k].op) then LastClock(tr[..k]) - OpenedAt(tr[..k]) else 0)
  {
    hide FullPhases, Called, LastClock, OpenedAt, OpBudget, Allotment, Continues, Opens;
    FullAt(tr, b, k);
    PlannedBudgets(b, |Called(tr[..k])|);
  }

  /**
   In a run whose callbacks keep their time, starting the broker is given the full 300000
   ms, and probing it is given exactly what the start left of them.
   */
  lemma BrokerGetsItsFullTime(b: Budget, tr: seq<Event>, k: nat)
    requires BudgetValid(b) && FullPhases(tr, b) && Called(tr) <= Planned && k < |tr| && tr[k].Call?
    ensures tr[k].op == StartMosquitto ==> tr[k].given == 300000
    ensures tr[k].op == ProbeMosquitto ==> tr[k].given == 300000 - (LastClock(tr[..k]) - OpenedAt(tr[..k]))
  {
    hide FullPhases, Called, LastClock, OpenedAt, BudgetValid;
    FullAt(tr, b, k);
    BrokerSteps(|Called(tr[..k])|);
    assert b.mosquitto == 300000 by { BrokerBudget(b); }
  }

  lemma BrokerBudget(b: Budget)
    requires BudgetValid(b)
    ensures b.mosquitto == 300000
  {
  }

  lemma BrokerSteps(n: nat)
    requires n < |Planned|
    ensures Planned[n] == StartMosquitto <==> n == 11
    ensures Planned[n] == ProbeMosquitto <==> n == 12
  {
  }

  /** One callback of a trace with full phases. */
  lemma FullAt(tr: seq<Event>, b: Budget, k: nat)
    requires FullPhases(tr, b) && k < |tr| && tr[k].Call?
    ensures
      var n, open := |Called(tr[..k])|, if Opens(|Called(tr[..k])|) then LastClock(tr[..k]) else OpenedAt(tr[..k]);
      && LastClock(tr[..k]) + tr[k].given == open + Allotment(b, n)
      && n < |Called(tr)| && Called(tr)[n] == tr[k].op
  {
    hide FullPhases, Called, LastClock, OpenedAt, Allotment;
    FullPrefix(tr, b, k + 1);
    CalledPrefix(tr, k + 1);
    assert tr[..k + 1] == tr[..k] + [Call(tr[k].op, tr[k].given, tr[k].returned)];
    AfterCall(tr[..k], tr[k].op, tr[k].given, tr[k].returned, b, 0);
  }

  lemma {:induction false} FullPrefix(tr: seq<Event>, b: Budget, k: nat)
    requires FullPhases(tr, b) && k <= |tr|
    ensures FullPhases(tr[..k], b)
    decreases |tr|
  {
    if k == |tr| {
      assert tr[..k] == tr;
    } else {
      FullPrefix(tr[..|tr| - 1], b, k);
      assert tr[..|tr| - 1][..k] == tr[..k];
    }
  }

  lemma {:induction false} CalledPrefix(tr: seq<Event>, k: nat)
    requires k <= |tr|
    ensures Called(tr[..k]) <= Called(tr)
    decreases |tr|
  {
    if k == |tr| {
      assert tr[..k] == tr;
    } else {
      CalledPrefix(tr[..|tr| - 1], k);
      assert tr[..|tr| - 1][..k] == tr[..k];
    }
  }
}

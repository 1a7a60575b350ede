/**
 The deadline monitor (tools/l4common/communication_monitor.c): a loop over two clocks, a
 wall clock that may do anything and a tick count that waits move forward.  What each
 round of the loop observes is a tape; nothing is assumed about its wall-clock readings.
 */
module CommunicationMonitor {
  import opened StoreBytes

  /** What the update state shows: the planned marker, its absence before arming, or anything else. */
  datatype Marker = Matching | NotYet | Other | Unreadable(error: nat)

  datatype Round = Round(stopped: bool, marker: Marker, utc: nat, tick: nat, again: nat, signalled: bool, cancelled: bool)

  type Tape = nat -> Round

  datatype Window = Window(armed: nat, deadline: nat, end: nat, graceEnd: nat)

  datatype Ending =
    | Cancelled | StateUnreadable(error: nat) | RevisionMismatch | TimeSkew | ExecutorInvoked | NeverObserved | EventFailed

  const CLOCK_GRID: nat := 32
  const MAX_U64: nat := U64_LIMIT - 1

  /** Milliseconds, rounded up, in a span of 100 ns units. */
  function Millis(span: nat): (ms: nat)
    ensures span <= 10000 * ms < span + 10000
  {
    span / 10000 + (if span % 10000 != 0 then 1 else 0)
  }

  /** The two monotonic bounds set when the monitor starts, or nothing when they would not fit. */
  function Armed(armed: nat, deadline: nat, now: U64, tick: U64): (w: Option<Window>)
    requires armed <= now < deadline < U64_LIMIT
    ensures w.Some? <==> tick + Millis(deadline - now) + CLOCK_GRID <= MAX_U64
    ensures w.Some? ==> WindowOk(w.value) && w.value.end == tick + Millis(deadline - now)
  {
    var ms := Millis(deadline - now);
    if tick > MAX_U64 - CLOCK_GRID || ms > MAX_U64 - tick - CLOCK_GRID then None
    else Some(Window(armed, deadline, tick + ms, tick + ms + CLOCK_GRID))
  }

  predicate WindowOk(w: Window) {
    w.armed < w.deadline && w.graceEnd == w.end + CLOCK_GRID
  }

  // ------------------------------------------------------------------ one round

  /** clock_sample: the wall clock is read again when the tick count has reached the end. */
  function Sample(w: Window, r: Round): Option<nat> {
    if r.utc < w.armed then None
    else if r.tick < w.end then Some(r.utc)
    else if r.again < w.armed || (r.again < w.deadline && r.tick >= w.graceEnd) then None
    else Some(r.again)
  }

  ghost predicate Seen(tape: Tape, k: nat) {
    exists i :: 0 <= i < k && tape(i).marker.Matching?
  }

  /** How long round `r` waits. */
  function WaitOf(w: Window, r: Round): nat {
    match Sample(w, r)
    case None => 0
    case Some(now) =>
      if now >= w.deadline then 0
      else
        var ms := if Millis(w.deadline - now) < 100 then Millis(w.deadline - now) else 100;
        if r.tick >= w.end && r.tick <= w.graceEnd && w.graceEnd - r.tick < ms then w.graceEnd - r.tick else ms
  }

  /** What ends the run in round `r`, if anything; `seen` tells whether the marker was seen before. */
  function Verdict(w: Window, r: Round, seen: bool): Option<Ending> {
    if r.stopped then Some(Cancelled)
    else if r.marker.Unreadable? then Some(StateUnreadable(r.marker.error))
    else if r.marker.Other? || (r.marker.NotYet? && seen) then Some(RevisionMismatch)
    else
      match Sample(w, r)
      case None => Some(TimeSkew)
      case Some(now) =>
        if now >= w.deadline then Some(if r.marker.Matching? then ExecutorInvoked else NeverObserved)
        else if !r.signalled then Some(EventFailed)
        else if r.cancelled then Some(Cancelled)
        else None
  }

  // ------------------------------------------------------------------ the loop

  /** The time asked for in the first `k` waits. */
  function Waited(w: Window, tape: Tape, k: nat): nat {
    if k == 0 then 0 else Waited(w, tape, k - 1) + WaitOf(w, tape(k - 1))
  }

  /**
   A wait lasts at least as long as it was asked for, on a tick count that is at most `lag`
   ms behind: a coarse count may stand still over many short waits.
   */
  ghost predicate KeepsTime(w: Window, tape: Tape, lag: nat) {
    forall k: nat :: tape(0).tick + Waited(w, tape, k) <= tape(k).tick + lag
  }

  /** Waits are exact and nothing else takes time. */
  ghost predicate ExactTime(w: Window, tape: Tape) {
    forall k: nat :: tape(k).tick + WaitOf(w, tape(k)) == tape(k + 1).tick
  }

  ghost predicate GoesOn(w: Window, tape: Tape, k: nat) {
    Verdict(w, tape(k), Seen(tape, k)).None?
  }

  /** The run ends in round `k`: the first round with a verdict. */
  ghost predicate Ended(w: Window, tape: Tape, k: nat, e: Ending) {
    (forall i: nat :: i < k ==> GoesOn(w, tape, i)) && Verdict(w, tape(k), Seen(tape, k)) == Some(e)
  }

  /** A round that goes on has not reached the grace end, and waits between 1 and 100 ms without passing it late. */
  lemma GoingOnWaits(w: Window, tape: Tape, k: nat)
    requires WindowOk(w) && GoesOn(w, tape, k)
    ensures tape(k).tick < w.graceEnd
    ensures 1 <= WaitOf(w, tape(k)) <= 100
    ensures tape(k).tick + WaitOf(w, tape(k)) < w.end + 100
  {
    hide Seen;
  }

  method Run(w: Window, tape: Tape, ghost lag: nat) returns (e: Ending, rounds: nat, waits: seq<nat>)
    requires WindowOk(w) && KeepsTime(w, tape, lag)
    ensures Ended(w, tape, rounds, e)
    ensures |waits| == rounds && forall i :: 0 <= i < rounds ==> waits[i] == WaitOf(w, tape(i)) && 1 <= waits[i] <= 100
  {
    hide WaitOf, Waited;
    var observed := false;
    rounds, waits := 0, [];
    while true
      invariant forall i: nat :: i < rounds ==> GoesOn(w, tape, i)
      invariant observed <==> Seen(tape, rounds)
      invariant |waits| == rounds && forall i :: 0 <= i < rounds ==> waits[i] == WaitOf(w, tape(i)) && 1 <= waits[i] <= 100
      decreases w.graceEnd + lag + 1 - Waited(w, tape, rounds) - tape(0).tick
    {
      var r := tape(rounds);
      if r.stopped {
        return Cancelled, rounds, waits;
      }
      if r.marker.Unreadable? {
        return StateUnreadable(r.marker.error), rounds, waits;
      }
      if r.marker.Matching? {
        observed := true;
      } else if observed || r.marker.Other? {
        return RevisionMismatch, rounds, waits;
      }
      var sample := Sample(w, r);
      if sample.None? {
        return TimeSkew, rounds, waits;
      }
      var now := sample.value;
      if now >= w.deadline {
        return if observed then ExecutorInvoked else NeverObserved, rounds, waits;
      }
      if !r.signalled {
        return EventFailed, rounds, waits;
      }
      var ms := Wait(w, r, now);
      if r.cancelled {
        return Cancelled, rounds, waits;
      }
      assert GoesOn(w, tape, rounds);
      GoingOnWaits(w, tape, rounds);
      WaitedNext(w, tape, rounds, lag);
      waits := waits + [ms];
      rounds := rounds + 1;
    }
  }

  lemma WaitedNext(w: Window, tape: Tape, k: nat, lag: nat)
    requires KeepsTime(w, tape, lag)
    ensures Waited(w, tape, k + 1) == Waited(w, tape, k) + WaitOf(w, tape(k))
    ensures tape(0).tick + Waited(w, tape, k) <= tape(k).tick + lag
  {
    hide WaitOf;
  }

  /** The wait of a round, computed as the loop does; the subtraction never wraps. */
  method Wait(w: Window, r: Round, now: nat) returns (ms: nat)
    requires WindowOk(w) && Sample(w, r) == Some(now) && now < w.deadline
    ensures ms == WaitOf(w, r)
  {
    var delta := Millis(w.deadline - now);
    ms := if delta < 100 then delta else 100;
    if r.tick >= w.end {
      var remaining: nat := w.graceEnd - r.tick;
      if remaining < ms {
        ms := remaining;
      }
    }
  }

  // ------------------------------------------------------------------ what every run guarantees

  /** The executor is invoked only on a wall-clock reading at or past the deadline, with the marker present in that very round. */
  lemma InvokedOnlyAtDeadline(w: Window, tape: Tape, k: nat)
    requires Ended(w, tape, k, ExecutorInvoked)
    ensures tape(k).marker.Matching? && !tape(k).stopped && w.armed <= tape(k).utc
    ensures Sample(w, tape(k)).Some? && Sample(w, tape(k)).value >= w.deadline
    ensures tape(k).utc >= w.deadline || (tape(k).tick >= w.end && tape(k).again >= w.deadline)
    ensures forall i: nat :: i < k ==> !tape(i).marker.Other? && !tape(i).marker.Unreadable?
  {
    hide Seen;
    forall i: nat | i < k ensures !tape(i).marker.Other? && !tape(i).marker.Unreadable? {
      assert GoesOn(w, tape, i);
    }
  }

  /** Once seen, the marker stays: every round from the first sighting to the end saw it. */
  lemma {:induction false} SeenStays(w: Window, tape: Tape, i: nat, j: nat, k: nat, e: Ending)
    requires Ended(w, tape, k, e) && i <= j < k && tape(i).marker.Matching?
    ensures tape(j).marker.Matching?
  {
    assert GoesOn(w, tape, j);
    if i < j {
      assert Seen(tape, j);
    }
  }

  /** Every round that goes on waits at least one millisecond. */
  lemma {:induction false} WaitsAddUp(w: Window, tape: Tape, k: nat)
    requires WindowOk(w) && forall i: nat :: i < k ==> GoesOn(w, tape, i)
    ensures k <= Waited(w, tape, k)
  {
    hide WaitOf, GoesOn;
    if k > 0 {
      WaitsAddUp(w, tape, k - 1);
      GoingOnWaits(w, tape, k - 1);
    }
  }

  /** Whatever the wall clock does, the run ends after a bounded number of rounds. */
  lemma {:induction false} RunIsBounded(w: Window, tape: Tape, k: nat, e: Ending, lag: nat)
    requires WindowOk(w) && KeepsTime(w, tape, lag) && Ended(w, tape, k, e)
    ensures k == 0 || tape(0).tick + k <= w.graceEnd + lag
  {
    hide WaitOf, GoesOn, Waited;
    if k > 0 {
      WaitsAddUp(w, tape, k - 1);
      assert tape(0).tick + Waited(w, tape, k - 1) <= tape(k - 1).tick + lag;
      assert GoesOn(w, tape, k - 1);
      GoingOnWaits(w, tape, k - 1);
    }
  }

  /** With exact waits the last round starts before `end` + 100 ms, whatever the wall clock does. */
  lemma EndsInTime(w: Window, tape: Tape, k: nat, e: Ending)
    requires WindowOk(w) && ExactTime(w, tape) && Ended(w, tape, k, e) && tape(0).tick <= w.end
    ensures tape(k).tick < w.end + 100
  {
    hide WaitOf, GoesOn;
    if k > 0 {
      assert GoesOn(w, tape, k - 1);
      GoingOnWaits(w, tape, k - 1);
      assert tape(k - 1).tick + WaitOf(w, tape(k - 1)) == tape(k - 1 + 1).tick;
    }
  }

  /** Nobody interferes: no stop, no failing event, and the marker is there in every round. */
  ghost predicate Undisturbed(tape: Tape) {
    forall k: nat :: !tape(k).stopped && tape(k).marker.Matching? && tape(k).signalled && !tape(k).cancelled
  }

  /** A wall clock held below the deadline cannot stretch the window: the run fails with a time skew. */
  lemma HeldClockFails(w: Window, tape: Tape, k: nat, e: Ending)
    requires Ended(w, tape, k, e) && Undisturbed(tape)
    requires forall i: nat :: tape(i).utc < w.deadline && tape(i).again < w.deadline
    ensures e == TimeSkew
  {
    hide Seen;
    var r := tape(k);
    assert !r.stopped && r.marker.Matching? && r.signalled && !r.cancelled;
    assert r.utc < w.deadline && r.again < w.deadline;
  }

  /** A wall clock that reaches the deadline by the tick bound, and never falls below the arming time, does invoke the executor. */
  lemma HonestClockInvokes(w: Window, tape: Tape, k: nat, e: Ending)
    requires Ended(w, tape, k, e) && Undisturbed(tape)
    requires forall i: nat :: w.armed <= tape(i).utc && w.armed <= tape(i).again && (tape(i).tick >= w.end ==> tape(i).again >= w.deadline)
    ensures e == ExecutorInvoked
  {
    hide Seen;
    var r := tape(k);
    assert !r.stopped && r.marker.Matching? && r.signalled && !r.cancelled;
    assert w.armed <= r.utc && w.armed <= r.again && (r.tick >= w.end ==> r.again >= w.deadline);
  }

  // ------------------------------------------------------------------ every ending, exactly

  /** The state was read and shows the marker, or its absence before it was ever seen. */
  ghost predicate MarkerFits(tape: Tape, k: nat) {
    || tape(k).marker.Matching?
    || (tape(k).marker.NotYet? && forall i :: 0 <= i < k ==> !tape(i).marker.Matching?)
  }

  /** The clocks agree: after arming, and not short of the deadline when the tick count has passed its grace. */
  predicate ClocksFit(w: Window, r: Round) {
    r.utc >= w.armed && (r.tick >= w.end ==> r.again >= w.armed && (r.again >= w.deadline || r.tick < w.graceEnd))
  }

  /** The wall-clock reading that counts: the second one once the tick count has reached the end. */
  function Reading(w: Window, r: Round): nat {
    if r.tick < w.end then r.utc else r.again
  }

  /**
   What ends a run, exactly: a stop, an unreadable state, a foreign or vanished marker,
   clocks that disagree, the deadline with and without the marker, a failing event, or a
   stop during the wait.
   */
  lemma EndsExactlyWhen(w: Window, tape: Tape, k: nat, e: Ending)
    requires Ended(w, tape, k, e)
    ensures
      var r := tape(k);
      var fine := !r.stopped && MarkerFits(tape, k) && ClocksFit(w, r);
      && (e == RevisionMismatch <==> !r.stopped && !r.marker.Unreadable? && !MarkerFits(tape, k))
      && (e.StateUnreadable? <==> !r.stopped && r.marker.Unreadable?) && (e.StateUnreadable? ==> e.error == r.marker.error)
      && (e == TimeSkew <==> !r.stopped && MarkerFits(tape, k) && !ClocksFit(w, r))
      && (e == ExecutorInvoked <==> fine && Reading(w, r) >= w.deadline && r.marker.Matching?)
      && (e == NeverObserved <==> fine && Reading(w, r) >= w.deadline && r.marker.NotYet?)
      && (e == EventFailed <==> fine && Reading(w, r) < w.deadline && !r.signalled)
      && (e == Cancelled <==> r.stopped || (fine && Reading(w, r) < w.deadline && r.signalled && r.cancelled))
  {
    assert Seen(tape, k) <==> !forall i :: 0 <= i < k ==> !tape(i).marker.Matching?;
  }

  /** And a run goes on exactly when none of this is the case. */
  lemma GoesOnExactlyWhen(w: Window, tape: Tape, k: nat)
    ensures GoesOn(w, tape, k) <==>
              && !tape(k).stopped && MarkerFits(tape, k) && ClocksFit(w, tape(k)) && Reading(w, tape(k)) < w.deadline
              && tape(k).signalled && !tape(k).cancelled
  {
    assert Seen(tape, k) <==> !forall i :: 0 <= i < k ==> !tape(i).marker.Matching?;
  }

  /** No stop and no failing event, and a wall clock that reaches the deadline by the tick bound. */
  ghost predicate Honest(w: Window, tape: Tape) {
    forall k: nat ::
      && !tape(k).stopped && tape(k).signalled && !tape(k).cancelled
      && w.armed <= tape(k).utc && w.armed <= tape(k).again && (tape(k).tick >= w.end ==> tape(k).again >= w.deadline)
  }

  /** A monitor started before the marker waits for it, and invokes the executor if the marker arrives before the run ends. */
  lemma MarkerMayArriveLate(w: Window, tape: Tape, arrival: nat, k: nat, e: Ending)
    requires Ended(w, tape, k, e) && Honest(w, tape)
    requires forall i: nat :: i < arrival ==> tape(i).marker.NotYet?
    requires forall i: nat :: i >= arrival ==> tape(i).marker.Matching?
    ensures e == if k >= arrival then ExecutorInvoked else NeverObserved
  {
    hide Ended, Honest, ClocksFit;
    EndsExactlyWhen(w, tape, k, e);
    HonestRound(w, tape, k, e);
  }

  /** Without the marker nothing is ever done. */
  lemma NeverArmedDoesNothing(w: Window, tape: Tape, k: nat, e: Ending)
    requires Ended(w, tape, k, e) && Honest(w, tape) && forall i: nat :: tape(i).marker.NotYet?
    ensures e == NeverObserved
  {
    hide Ended, Honest, ClocksFit;
    EndsExactlyWhen(w, tape, k, e);
    HonestRound(w, tape, k, e);
  }

  lemma HonestRound(w: Window, tape: Tape, k: nat, e: Ending)
    requires Honest(w, tape)
    ensures !tape(k).stopped && tape(k).signalled && !tape(k).cancelled && ClocksFit(w, tape(k))
  {
  }

  /**
   A wait is as long as it may be and no longer: 100 ms, or what is left to the deadline
   rounded up, or, past the tick bound, what is left to the grace end.
   */
  lemma WaitIsTight(w: Window, tape: Tape, k: nat)
    requires WindowOk(w) && GoesOn(w, tape, k)
    ensures
      var r, ms := tape(k), WaitOf(w, tape(k));
      var left := w.deadline - Reading(w, r);
      && ms <= 100 && 10000 * (ms - 1) < left && (r.tick >= w.end ==> r.tick + ms <= w.graceEnd)
      && (ms == 100 || 10000 * ms >= left || (r.tick >= w.end && r.tick + ms == w.graceEnd))
  {
    hide Seen;
  }
}

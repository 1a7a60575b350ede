/**
 The contact form relay (l4desk-landing/contact/server.py): sliding-window limits over
 pruned attempt lists, and request ids that stay reserved for an hour.  Each method is one
 section under the relay's lock; submissions enter in clock order and may end in any order.
 */
module ContactRelay {
  import opened StoreBytes

  datatype Bucket = Ip(ip: string) | Email(email: string) | Global

  function Period(b: Bucket): real {
    if b.Ip? then 600.0 else 86400.0
  }

  function Quota(b: Bucket): nat {
    if b.Global? then 100 else 3
  }

  const KEEP: real := 86400.0
  const HOLD: real := 3600.0

  // ------------------------------------------------------------------ attempt lists

  predicate Sorted(ts: seq<real>) {
    forall i, j :: 0 <= i < j < |ts| ==> ts[i] <= ts[j]
  }

  /** The attempts younger than `age`. */
  function Recent(ts: seq<real>, now: real, age: real): seq<real> {
    if ts == [] then []
    else (if now - ts[0] < age then [ts[0]] else []) + Recent(ts[1..], now, age)
  }

  lemma {:induction false} RecentAll(ts: seq<real>, now: real, age: real)
    requires forall i :: 0 <= i < |ts| ==> now - ts[i] < age
    ensures Recent(ts, now, age) == ts
    decreases |ts|
  {
    if ts != [] {
      assert forall i :: 0 <= i < |ts[1..]| ==> ts[1..][i] == ts[i + 1];
      RecentAll(ts[1..], now, age);
      assert ts == [ts[0]] + ts[1..];
    }
  }

  /** In a sorted list the recent attempts are a suffix. */
  lemma {:induction false} RecentIsSuffix(ts: seq<real>, now: real, age: real)
    requires Sorted(ts)
    ensures
      var r := Recent(ts, now, age);
      && |r| <= |ts| && r == ts[|ts| - |r|..]
      && forall i :: 0 <= i < |ts| - |r| ==> now - ts[i] >= age
    decreases |ts|
  {
    hide Recent;
    if ts == [] {
      RecentAll(ts, now, age);
    } else if now - ts[0] < age {
      assert forall i :: 0 < i < |ts| ==> ts[0] <= ts[i];
      RecentAll(ts, now, age);
    } else {
      var tail := ts[1..];
      RecentIsSuffix(tail, now, age);
      RecentRest(ts, now, age);
      var r := Recent(tail, now, age);
      assert ts[|ts| - |r|..] == tail[|tail| - |r|..];
      forall i | 0 <= i < |ts| - |r| ensures now - ts[i] >= age {
        if i > 0 { assert ts[i] == tail[i - 1]; }
      }
    }
  }

  lemma RecentRest(ts: seq<real>, now: real, age: real)
    requires ts != [] && now - ts[0] >= age
    ensures Recent(ts, now, age) == Recent(ts[1..], now, age)
  {
  }

  /** `kept` is what is left of all attempts after dropping only old ones. */
  ghost predicate KeptFrom(all: seq<real>, kept: seq<real>, clock: real) {
    && |kept| <= |all| && kept == all[|all| - |kept|..]
    && forall i :: 0 <= i < |all| - |kept| ==> clock - all[i] >= KEEP
  }

  /** Any `limit` + 1 consecutive attempts are at least `period` apart. */
  predicate Spaced(all: seq<real>, period: real, limit: nat) {
    forall i, j :: 0 <= i && i + limit <= j < |all| ==> all[j] - all[i] >= period
  }

  lemma PruneKeeps(all: seq<real>, kept: seq<real>, clock: real, now: real)
    requires Sorted(all) && KeptFrom(all, kept, clock) && clock <= now
    ensures KeptFrom(all, Recent(kept, now, KEEP), now)
    ensures kept == [] || now - kept[|kept| - 1] >= KEEP ==> Recent(kept, now, KEEP) == []
  {
    var r, cut := Recent(kept, now, KEEP), |all| - |kept|;
    RecentIsSuffix(kept, now, KEEP);
    forall i | 0 <= i < |all| - |r| ensures now - all[i] >= KEEP {
      if i >= cut { assert all[i] == kept[i - cut]; }
    }
    if kept != [] && now - kept[|kept| - 1] >= KEEP && r != [] {
      assert r[|r| - 1] == kept[|kept| - 1];
      RecentAreRecent(kept, now, KEEP);
      assert false;
    }
  }

  lemma {:induction false} RecentAreRecent(ts: seq<real>, now: real, age: real)
    ensures forall i :: 0 <= i < |Recent(ts, now, age)| ==> now - Recent(ts, now, age)[i] < age
    decreases |ts|
  {
    if ts != [] {
      RecentAreRecent(ts[1..], now, age);
    }
  }

  /** Counting in the pruned list is enough: fewer than `limit` recent ones leave room for one more. */
  lemma RoomForOneMore(all: seq<real>, kept: seq<real>, now: real, period: real, limit: nat)
    requires Sorted(all) && KeptFrom(all, kept, now) && Spaced(all, period, limit) && 0.0 < period <= KEEP && limit > 0
    requires forall i :: 0 <= i < |all| ==> all[i] <= now
    requires |Recent(kept, now, period)| < limit
    ensures Sorted(all + [now]) && Spaced(all + [now], period, limit) && KeptFrom(all + [now], kept + [now], now)
  {
    hide Recent;
    NotRecent(all, kept, now, period);
    var r := Recent(kept, now, period);
    var more := all + [now];
    forall i, j | 0 <= i && i + limit <= j < |more| ensures more[j] - more[i] >= period {
      if j == |all| { assert now - all[i] >= period; }
    }
    assert (kept + [now]) == more[|more| - |kept + [now]|..];
  }

  /** All but the counted attempts are at least `period` old. */
  lemma NotRecent(all: seq<real>, kept: seq<real>, now: real, period: real)
    requires Sorted(all) && KeptFrom(all, kept, now) && 0.0 < period <= KEEP
    ensures |Recent(kept, now, period)| <= |all|
    ensures forall i :: 0 <= i < |all| - |Recent(kept, now, period)| ==> now - all[i] >= period
  {
    hide Recent;
    var r, cut := Recent(kept, now, period), |all| - |kept|;
    KeptSorted(all, kept, now);
    RecentIsSuffix(kept, now, period);
    forall i | 0 <= i < |all| - |r| ensures now - all[i] >= period {
      if i >= cut { assert all[i] == kept[i - cut]; }
    }
  }

  lemma KeptSorted(all: seq<real>, kept: seq<real>, clock: real)
    requires Sorted(all) && KeptFrom(all, kept, clock)
    ensures Sorted(kept)
  {
  }

  /** The attempts in the half-open window from `start`. */
  function InWindow(ts: seq<real>, start: real, period: real): nat {
    if ts == [] then 0
    else InWindow(ts[..|ts| - 1], start, period) + (if start <= ts[|ts| - 1] < start + period then 1 else 0)
  }

  /** Spaced attempts never exceed the limit in any window of the period. */
  lemma {:induction false} WindowsAreLimited(ts: seq<real>, start: real, period: real, limit: nat)
    requires Sorted(ts) && Spaced(ts, period, limit) && limit > 0
    ensures InWindow(ts, start, period) <= limit
    decreases |ts|
  {
    if ts != [] {
      var front, last := ts[..|ts| - 1], ts[|ts| - 1];
      if start <= last < start + period {
        if |front| < limit {
          WindowAtMost(front, start, period);
        } else {
          var early := |front| - limit + 1;
          assert ts[|ts| - 1] - ts[early - 1] >= period;
          WindowEnds(front, start, period, early);
        }
      } else {
        WindowsAreLimited(front, start, period, limit);
      }
    }
  }

  lemma {:induction false} WindowAtMost(ts: seq<real>, start: real, period: real)
    ensures InWindow(ts, start, period) <= |ts|
    decreases |ts|
  {
    if ts != [] { WindowAtMost(ts[..|ts| - 1], start, period); }
  }

  /** Attempts before position `early` lie before the window. */
  lemma {:induction false} WindowEnds(ts: seq<real>, start: real, period: real, early: nat)
    requires Sorted(ts) && early <= |ts| && (early > 0 ==> ts[early - 1] < start)
    ensures InWindow(ts, start, period) <= |ts| - early
    decreases |ts|
  {
    if ts != [] {
      var front := ts[..|ts| - 1];
      if early == |ts| {
        if early > 1 { assert front[early - 2] < start; }
        WindowEnds(front, start, period, early - 1);
      } else {
        if early > 0 { assert front[early - 1] < start; }
        WindowEnds(front, start, period, early);
      }
    }
  }

  lemma {:induction false} RecentAppend(a: seq<real>, b: seq<real>, now: real, age: real)
    ensures Recent(a + b, now, age) == Recent(a, now, age) + Recent(b, now, age)
    decreases |a|
  {
    if a == [] {
      assert a + b == b;
    } else {
      assert (a + b)[1..] == a[1..] + b;
      RecentAppend(a[1..], b, now, age);
    }
  }

  lemma {:induction false} RecentNone(ts: seq<real>, now: real, age: real)
    requires forall i :: 0 <= i < |ts| ==> now - ts[i] >= age
    ensures Recent(ts, now, age) == []
    decreases |ts|
  {
    if ts != [] {
      assert forall i :: 0 <= i < |ts[1..]| ==> ts[1..][i] == ts[i + 1];
      RecentNone(ts[1..], now, age);
    }
  }

  /** Dropping old attempts does not change what is counted. */
  lemma PruningIsInvisible(all: seq<real>, kept: seq<real>, now: real, period: real)
    requires KeptFrom(all, kept, now) && period <= KEEP
    ensures Recent(all, now, period) == Recent(kept, now, period)
  {
    hide Recent;
    var dropped := all[..|all| - |kept|];
    assert all == dropped + kept;
    RecentAppend(dropped, kept, now, period);
    RecentNone(dropped, now, period);
  }

  // ------------------------------------------------------------------ the history of submissions

  datatype Reply = Reply(copySent: bool)

  datatype Event =
    | Admitted(time: real, key: string, ip: string, email: string)
    | Sent(of: nat, at: real, reply: Reply)
    | Failed(of: nat, at: real)

  predicate InBucket(e: Event, b: Bucket) {
    e.Admitted? && match b case Ip(ip) => e.ip == ip case Email(email) => e.email == email case Global => true
  }

  /** All admissions of a bucket, pruned or not. */
  ghost function Times(events: seq<Event>, b: Bucket): seq<real> {
    if events == [] then []
    else
      var front, last := events[..|events| - 1], events[|events| - 1];
      Times(front, b) + if InBucket(last, b) then [last.time] else []
  }

  predicate Concerns(events: seq<Event>, of: nat, key: string) {
    of < |events| && events[of].Admitted? && events[of].key == key
  }

  /** What is known about a request id: when, from where and for whom it was admitted, and the reply it got. */
  datatype Entry = Entry(time: real, ip: string, email: string, reply: Option<Reply>)

  /** What one more event does to the holder of a request id. */
  function HolderAfter(events: seq<Event>, held: Option<Entry>, e: Event, key: string): Option<Entry> {
    if e.Admitted? then (if e.key == key then Some(Entry(e.time, e.ip, e.email, None)) else held)
    else if !Concerns(events, e.of, key) then held
    else if e.Sent? then Some(Entry(events[e.of].time, events[e.of].ip, events[e.of].email, Some(e.reply)))
    else None
  }

  /** Who holds a request id: its latest admission or a later reply, until a failure. */
  ghost function Holder(events: seq<Event>, key: string): Option<Entry> {
    if events == [] then None
    else
      var front, last := events[..|events| - 1], events[|events| - 1];
      HolderAfter(front, Holder(front, key), last, key)
  }

  ghost predicate Held(events: seq<Event>, key: string, now: real) {
    Holder(events, key).Some? && now - Holder(events, key).value.time < HOLD
  }

  /** Nothing is admitted while its request id is held. */
  ghost predicate OncePerHold(events: seq<Event>) {
    events == [] ||
    (OncePerHold(events[..|events| - 1]) &&
     (events[|events| - 1].Admitted? ==> !Held(events[..|events| - 1], events[|events| - 1].key, events[|events| - 1].time)))
  }

  lemma HolderSnoc(events: seq<Event>, e: Event, key: string)
    ensures Holder(events + [e], key) == HolderAfter(events, Holder(events, key), e, key)
  {
    assert (events + [e])[..|events|] == events;
  }

  lemma TimesSnoc(events: seq<Event>, e: Event, b: Bucket)
    ensures Times(events + [e], b) == Times(events, b) + if InBucket(e, b) then [e.time] else []
  {
    assert (events + [e])[..|events|] == events;
  }

  // ------------------------------------------------------------------ the relay

  datatype Opening = Admit | Repeated(reply: Reply) | Mismatch | InProgress | TooMany

  /** The answer to a repeated request id. */
  function ReplyTo(e: Entry, ip: string, email: string): Opening {
    if e.ip != ip || e.email != email then Mismatch
    else if e.reply.Some? then Repeated(e.reply.value)
    else InProgress
  }

  function Stored(attempts: map<Bucket, seq<real>>, b: Bucket): seq<real> {
    if b in attempts then attempts[b] else []
  }

  /** One bucket's list stands for all its admissions. */
  ghost predicate BucketOk(all: seq<real>, kept: seq<real>, clock: real, b: Bucket) {
    && Sorted(all) && KeptFrom(all, kept, clock) && Spaced(all, Period(b), Quota(b))
    && forall i :: 0 <= i < |all| ==> all[i] <= clock
  }

  /** The results hold exactly the holders that are younger than an hour, and perhaps older ones. */
  ghost predicate EntryOk(results: map<string, Entry>, holder: Option<Entry>, key: string, clock: real) {
    && (key in results ==> holder == Some(results[key]))
    && (holder.Some? && clock - holder.value.time < HOLD ==> key in results)
  }

  lemma PruneBucket(all: seq<real>, kept: seq<real>, clock: real, now: real, b: Bucket)
    requires BucketOk(all, kept, clock, b) && clock <= now
    ensures
      BucketOk(all, if kept != [] && now - kept[|kept| - 1] < KEEP then Recent(kept, now, KEEP) else [], now, b)
  {
    hide Recent;
    PruneKeeps(all, kept, clock, now);
  }

  lemma AppendBucket(all: seq<real>, kept: seq<real>, now: real, b: Bucket)
    requires BucketOk(all, kept, now, b) && |Recent(kept, now, Period(b))| < Quota(b)
    ensures BucketOk(all + [now], kept + [now], now, b)
  {
    hide Recent;
    RoomForOneMore(all, kept, now, Period(b), Quota(b));
  }

  /** Time passes without the attempt lists being touched. */
  lemma TimePasses(all: seq<real>, kept: seq<real>, clock: real, now: real, b: Bucket)
    requires BucketOk(all, kept, clock, b) && clock <= now
    ensures BucketOk(all, kept, now, b)
  {
  }

  class Relay {
    var results: map<string, Entry>
    var attempts: map<Bucket, seq<real>>
    ghost var events: seq<Event>
    ghost var clock: real

    ghost predicate Valid()
      reads this
    {
      && (forall b :: BucketOk(Times(events, b), Stored(attempts, b), clock, b))
      && (forall k :: EntryOk(results, Holder(events, k), k, clock))
      && OncePerHold(events)
    }

    constructor (start: real)
      ensures Valid() && events == [] && clock == start
    {
      results, attempts := map[], map[];
      events, clock := [], start;
    }

    /** Results older than an hour are forgotten. */
    method PruneResults(now: real)
      requires Valid() && clock <= now
      modifies this`results
      ensures forall k :: EntryOk(results, Holder(events, k), k, now)
      ensures forall k :: k in results ==> now - results[k].time < HOLD && k in old(results) && results[k] == old(results)[k]
    {
      hide BucketOk, Times, Holder, OncePerHold;
      ghost var before := results;
      results := map k | k in results && now - results[k].time < HOLD :: results[k];
      forall k ensures EntryOk(results, Holder(events, k), k, now) {
        assert EntryOk(before, Holder(events, k), k, clock);
      }
    }

    /** Attempts older than a day are forgotten, and lists without a younger one altogether. */
    method PruneAttempts(now: real)
      requires clock <= now && forall b :: BucketOk(Times(events, b), Stored(attempts, b), clock, b)
      modifies this`attempts
      ensures forall b :: BucketOk(Times(events, b), Stored(attempts, b), now, b)
    {
      hide BucketOk, Times, Recent;
      ghost var before := attempts;
      attempts := map b | b in attempts && attempts[b] != [] && now - attempts[b][|attempts[b]| - 1] < KEEP ::
                    Recent(attempts[b], now, KEEP);
      forall b ensures BucketOk(Times(events, b), Stored(attempts, b), now, b) {
        PruneBucket(Times(events, b), Stored(before, b), clock, now, b);
      }
    }

    /** Whether a bucket still has room, counted over all its admissions. */
    method HasRoom(b: Bucket, now: real) returns (room: bool)
      requires BucketOk(Times(events, b), Stored(attempts, b), now, b)
      ensures room <==> |Recent(Times(events, b), now, Period(b))| < Quota(b)
      ensures room <==> |Recent(Stored(attempts, b), now, Period(b))| < Quota(b)
    {
      hide Recent, Times;
      PruningIsInvisible(Times(events, b), Stored(attempts, b), now, Period(b));
      room := |Recent(Stored(attempts, b), now, Period(b))| < Quota(b);
    }

    /** One admission is recorded in its three buckets. */
    method Record(now: real, ip: string, email: string, ghost key: string)
      requires forall b :: BucketOk(Times(events, b), Stored(attempts, b), now, b)
      requires forall b :: b in {Ip(ip), Email(email), Global} ==> |Recent(Stored(attempts, b), now, Period(b))| < Quota(b)
      modifies this`attempts
      ensures forall b :: BucketOk(Times(events + [Admitted(now, key, ip, email)], b), Stored(attempts, b), now, b)
    {
      hide BucketOk, Times, Recent;
      ghost var before := attempts;
      attempts := attempts[Ip(ip) := Stored(attempts, Ip(ip)) + [now]];
      attempts := attempts[Email(email) := Stored(attempts, Email(email)) + [now]];
      attempts := attempts[Global := Stored(attempts, Global) + [now]];
      ghost var e := Admitted(now, key, ip, email);
      forall b ensures BucketOk(Times(events + [e], b), Stored(attempts, b), now, b) {
        TimesSnoc(events, e, b);
        if InBucket(e, b) {
          assert b in {Ip(ip), Email(email), Global};
          AppendBucket(Times(events, b), Stored(before, b), now, b);
        } else {
          assert Stored(attempts, b) == Stored(before, b);
          assert Times(events, b) + [] == Times(events, b);
        }
      }
    }

    /**
     The first locked section of a submission: admitted exactly when the request id is not
     held and all three buckets have room; anything else leaves the history as it was.
     */
    method Begin(now: real, key: string, ip: string, email: string) returns (o: Opening)
      requires Valid() && clock <= now
      modifies this
      ensures Valid() && clock == now
      ensures events == if o.Admit? then old(events) + [Admitted(now, key, ip, email)] else old(events)
      ensures o.Admit? <==> !Held(old(events), key, now) && HasRoomFor(old(events), now, ip, email)
      ensures o.TooMany? <==> !Held(old(events), key, now) && !HasRoomFor(old(events), now, ip, email)
      ensures Held(old(events), key, now) ==>
                var holder := Holder(old(events), key).value;
                && (o.Mismatch? <==> holder.ip != ip || holder.email != email)
                && (o.Repeated? <==> holder.ip == ip && holder.email == email && holder.reply.Some?)
                && (o.Repeated? ==> holder.reply == Some(o.reply))
    {
      hide BucketOk, Times, Recent, Holder, OncePerHold;
      PruneResults(now);
      ghost var before := events;
      assert EntryOk(results, Holder(events, key), key, now);
      if key in results {
        var existing := results[key];
        assert now - existing.time < HOLD;
        forall b ensures BucketOk(Times(events, b), Stored(attempts, b), now, b) {
          TimePasses(Times(events, b), Stored(attempts, b), clock, now, b);
        }
        clock := now;
        return ReplyTo(existing, ip, email);
      }
      PruneAttempts(now);
      var byIp := HasRoom(Ip(ip), now);
      var byEmail := HasRoom(Email(email), now);
      var byAll := HasRoom(Global, now);
      if !byIp || !byEmail || !byAll {
        clock := now;
        return TooMany;
      }
      Record(now, ip, email, key);
      results := results[key := Entry(now, ip, email, None)];
      ghost var e := Admitted(now, key, ip, email);
      OnceSnoc(events, e);
      forall k ensures EntryOk(results, Holder(events + [e], k), k, now) {
        HolderSnoc(events, e, k);
      }
      events, clock := events + [e], now;
      return Admit;
    }

    /** The second locked section after a confirmed mail: the reply is kept under the time of admission. */
    method Complete(ticket: Event, reply: Reply, ghost of: nat, ghost at: real)
      requires Valid() && of < |events| && events[of] == ticket && ticket.Admitted?
      modifies this
      ensures Valid() && clock == old(clock) && events == old(events) + [Sent(of, at, reply)]
      ensures ticket.key in results && results[ticket.key].reply == Some(reply)
    {
      hide BucketOk, Times, Holder, OncePerHold;
      results := results[ticket.key := Entry(ticket.time, ticket.ip, ticket.email, Some(reply))];
      ghost var e := Sent(of, at, reply);
      OnceSnoc(events, e);
      forall k ensures EntryOk(results, Holder(events + [e], k), k, clock) {
        HolderSnoc(events, e, k);
      }
      SameTimes(events, e);
      events := events + [e];
    }

    /** The second locked section after a refusal or an unconfirmed mail: the request id is released. */
    method Release(ticket: Event, ghost of: nat, ghost at: real)
      requires Valid() && of < |events| && events[of] == ticket && ticket.Admitted?
      modifies this
      ensures Valid() && clock == old(clock) && events == old(events) + [Failed(of, at)]
      ensures ticket.key !in results
    {
      hide BucketOk, Times, Holder, OncePerHold;
      results := results - {ticket.key};
      ghost var e := Failed(of, at);
      OnceSnoc(events, e);
      forall k ensures EntryOk(results, Holder(events + [e], k), k, clock) {
        HolderSnoc(events, e, k);
      }
      SameTimes(events, e);
      events := events + [e];
    }
  }

  /** Room in all three buckets of a submission. */
  ghost predicate HasRoomFor(events: seq<Event>, now: real, ip: string, email: string) {
    forall b :: b in {Ip(ip), Email(email), Global} ==> |Recent(Times(events, b), now, Period(b))| < Quota(b)
  }

  lemma OnceSnoc(events: seq<Event>, e: Event)
    ensures OncePerHold(events + [e]) <==> OncePerHold(events) && (e.Admitted? ==> !Held(events, e.key, e.time))
  {
    hide Held;
    assert (events + [e])[..|events|] == events;
  }

  lemma SameTimes(events: seq<Event>, e: Event)
    requires !e.Admitted?
    ensures forall b :: Times(events + [e], b) == Times(events, b)
  {
    hide Times;
    forall b ensures Times(events + [e], b) == Times(events, b) {
      TimesSnoc(events, e, b);
    }
  }

  // ------------------------------------------------------------------ what every history guarantees

  /** In every reachable history each bucket admits at most its quota in every window of its period. */
  lemma QuotasHold(relay: Relay, b: Bucket, start: real)
    requires relay.Valid()
    ensures InWindow(Times(relay.events, b), start, Period(b)) <= Quota(b)
  {
    hide InWindow, Times;
    assert BucketOk(Times(relay.events, b), Stored(relay.attempts, b), relay.clock, b);
    WindowsAreLimited(Times(relay.events, b), start, Period(b), Quota(b));
  }

  /** In figures: three in ten minutes per address, three a day per e-mail address, a hundred a day in all. */
  lemma QuotasInFigures(relay: Relay, ip: string, email: string, start: real)
    requires relay.Valid()
    ensures InWindow(Times(relay.events, Ip(ip)), start, 600.0) <= 3
    ensures InWindow(Times(relay.events, Email(email)), start, 86400.0) <= 3
    ensures InWindow(Times(relay.events, Global), start, 86400.0) <= 100
  {
    hide InWindow, Times, Relay.Valid;
    QuotasHold(relay, Ip(ip), start);
    QuotasHold(relay, Email(email), start);
    QuotasHold(relay, Global, start);
  }

  /** And room, in figures. */
  lemma RoomInFigures(events: seq<Event>, now: real, ip: string, email: string)
    ensures HasRoomFor(events, now, ip, email) <==>
              && |Recent(Times(events, Ip(ip)), now, 600.0)| < 3
              && |Recent(Times(events, Email(email)), now, 86400.0)| < 3
              && |Recent(Times(events, Global), now, 86400.0)| < 100
  {
    hide Recent, Times;
    assert Ip(ip) in {Ip(ip), Email(email), Global} && Email(email) in {Ip(ip), Email(email), Global} && Global in {Ip(ip), Email(email), Global};
  }

  lemma {:induction false} OncePrefix(events: seq<Event>, j: nat)
    requires OncePerHold(events) && j < |events| && events[j].Admitted?
    ensures !Held(events[..j], events[j].key, events[j].time)
    decreases |events|
  {
    hide Held;
    var front := events[..|events| - 1];
    if j < |front| {
      OncePrefix(front, j);
      assert front[..j] == events[..j];
    }
  }

  function TimeOf(e: Event): real {
    if e.Admitted? then e.time else e.at
  }

  predicate Ends(e: Event) {
    e.Sent? || e.Failed?
  }

  ghost predicate InClockOrder(events: seq<Event>) {
    forall i, j :: 0 <= i < j < |events| ==> TimeOf(events[i]) <= TimeOf(events[j])
  }

  /** Every submission ends at most once, after it began and before its hour is over. */
  ghost predicate Prompt(events: seq<Event>) {
    && (forall m :: 0 <= m < |events| && Ends(events[m]) ==>
          events[m].of < m && events[events[m].of].Admitted? && events[m].at - events[events[m].of].time < HOLD)
    && (forall m, n :: 0 <= m < n < |events| && Ends(events[m]) && Ends(events[n]) ==> events[m].of != events[n].of)
  }

  /** The request id of `i` is admitted again at `j`, for the first time after `i`, within the hour. */
  ghost predicate NextWithinHold(events: seq<Event>, i: nat, j: nat) {
    && i < j < |events| && events[i].Admitted? && events[j].Admitted?
    && events[i].key == events[j].key && events[j].time - events[i].time < HOLD
    && forall m :: i < m < j && events[m].Admitted? ==> events[m].key != events[i].key
  }

  /** No submission other than `i` ends between `i` and `j` with its request id. */
  ghost predicate OnlyItsOwnEnding(events: seq<Event>, i: nat, j: nat) {
    i < |events| && events[i].Admitted? ==> forall m :: i < m < j && m < |events| && Ends(events[m]) ==>
      Concerns(events[..m], events[m].of, events[i].key) ==> events[m].of == i
  }

  lemma {:induction false} StillHeld(events: seq<Event>, i: nat, j: nat)
    requires i < j <= |events| && events[i].Admitted? && OnlyItsOwnEnding(events, i, j)
    requires forall m :: i < m < j && events[m].Admitted? ==> events[m].key != events[i].key
    requires forall m :: i < m < j && events[m].Failed? ==> events[m].of != i
    ensures
      var holder := Holder(events[..j], events[i].key);
      holder.Some? && holder.value.time == events[i].time && holder.value.ip == events[i].ip && holder.value.email == events[i].email
    decreases j
  {
    hide Holder, Concerns;
    var key, front := events[i].key, events[..j - 1];
    assert events[..j] == front + [events[j - 1]];
    HolderSnoc(front, events[j - 1], key);
    if j - 1 > i {
      StillHeld(events, i, j - 1);
      if Ends(events[j - 1]) && Concerns(front, events[j - 1].of, key) {
        assert events[j - 1].of == i && front[i] == events[i];
      }
    }
  }

  /** Between an admission and the next one of its request id only its own ending can occur. */
  lemma {:induction false} EndingsAreOwn(events: seq<Event>, i: nat, j: nat)
    requires OncePerHold(events) && InClockOrder(events) && Prompt(events) && i < |events| && events[i].Admitted? && j <= |events|
    requires forall m :: i < m < j && events[m].Admitted? ==> events[m].key != events[i].key
    ensures OnlyItsOwnEnding(events, i, j)
    decreases i, 1
  {
    hide Holder, OncePerHold;
    forall m | i < m < j && Ends(events[m]) && Concerns(events[..m], events[m].of, events[i].key) ensures events[m].of == i {
      var a := events[m].of;
      assert events[..m][a] == events[a];
      if a < i {
        var k := FirstAfter(events, a, i);
        assert TimeOf(events[k]) <= TimeOf(events[i]) <= TimeOf(events[m]);
        var f := SecondNeedsAFailure(events, a, k);
        assert false;
      }
    }
  }

  lemma {:induction false} FirstAfter(events: seq<Event>, a: nat, i: nat) returns (k: nat)
    requires a < i < |events| && events[a].Admitted? && events[i].Admitted? && events[a].key == events[i].key
    ensures a < k <= i && events[k].Admitted? && events[k].key == events[a].key
    ensures forall m :: a < m < k && events[m].Admitted? ==> events[m].key != events[a].key
    decreases i
  {
    if m :| a < m < i && events[m].Admitted? && events[m].key == events[a].key {
      k := FirstAfter(events, a, m);
    } else {
      k := i;
    }
  }

  /**
   When every submission ends within its hour, a second submission with the same request id
   in that hour is admitted only after the first one failed.
   */
  lemma {:induction false} SecondNeedsAFailure(events: seq<Event>, i: nat, j: nat) returns (m: nat)
    requires OncePerHold(events) && InClockOrder(events) && Prompt(events) && NextWithinHold(events, i, j)
    ensures i < m < j && events[m].Failed? && events[m].of == i
    decreases i, 2
  {
    hide Holder, Concerns, InClockOrder;
    EndingsAreOwn(events, i, j);
    m := i;
    if m' :| i < m' < j && events[m'].Failed? && events[m'].of == i {
      m := m';
    } else {
      StillHeld(events, i, j);
      OncePrefix(events, j);
      assert false;
    }
  }

  ghost predicate LatestAdmission(events: seq<Event>, key: string, i: nat) {
    && i < |events| && events[i].Admitted? && events[i].key == key
    && forall m :: i < m < |events| && events[m].Admitted? ==> events[m].key != key
  }

  ghost predicate HasFailed(events: seq<Event>, i: nat) {
    exists m :: i < m < |events| && events[m].Failed? && events[m].of == i
  }

  /** Without an admission nobody holds a request id. */
  lemma {:induction false} NeverAdmitted(events: seq<Event>, key: string)
    requires forall m :: 0 <= m < |events| && events[m].Admitted? ==> events[m].key != key
    ensures Holder(events, key) == None
  {
    if events != [] {
      NeverAdmitted(events[..|events| - 1], key);
    }
  }

  /** Once released, a request id stays free while nothing more concerns it. */
  lemma {:induction false} StaysFree(events: seq<Event>, key: string, n: nat)
    requires n <= |events| && Holder(events[..n], key) == None
    requires forall m :: n <= m < |events| && events[m].Admitted? ==> events[m].key != key
    requires forall m :: n <= m < |events| && Ends(events[m]) ==> !Concerns(events[..m], events[m].of, key)
    ensures Holder(events, key) == None
    decreases |events|
  {
    hide Holder, Concerns;
    if n == |events| {
      assert events[..n] == events;
    } else {
      var front, last := events[..|events| - 1], events[|events| - 1];
      assert events == front + [last] && front[..n] == events[..n];
      forall m | n <= m < |front| && Ends(front[m]) ensures !Concerns(front[..m], front[m].of, key) {
        assert front[..m] == events[..m];
      }
      StaysFree(front, key, n);
      HolderSnoc(front, last, key);
    }
  }

  lemma FailedIsFree(events: seq<Event>, i: nat, key: string)
    requires OncePerHold(events) && InClockOrder(events) && Prompt(events) && LatestAdmission(events, key, i) && HasFailed(events, i)
    ensures Holder(events, key) == None
  {
    hide Holder, Concerns, OncePerHold, InClockOrder;
    EndingsAreOwn(events, i, |events|);
    var m :| i < m < |events| && events[m].Failed? && events[m].of == i;
    var front := events[..m];
    assert events[..m + 1] == front + [events[m]];
    assert Concerns(front, i, key) by { FrontConcerns(events, i, m, key); }
    HolderSnoc(front, events[m], key);
    forall n | m + 1 <= n < |events| && Ends(events[n]) ensures !Concerns(events[..n], events[n].of, key) {
      assert Ends(events[m]) && events[m].of != events[n].of;
    }
    StaysFree(events, key, m + 1);
  }

  lemma FrontConcerns(events: seq<Event>, i: nat, m: nat, key: string)
    requires i < m <= |events| && events[i].Admitted? && events[i].key == key
    ensures Concerns(events[..m], i, key)
  {
  }

  /**
   When every submission ends within its hour, a request id is held exactly when its latest
   admission is younger than an hour and has not failed.
   */
  lemma HeldExactlyWhen(events: seq<Event>, key: string, now: real)
    requires OncePerHold(events) && InClockOrder(events) && Prompt(events)
    ensures Held(events, key, now) <==>
              exists i: nat :: LatestAdmission(events, key, i) && now - events[i].time < 3600.0 && !HasFailed(events, i)
  {
    hide Holder, OncePerHold, InClockOrder, Prompt;
    if m :| 0 <= m < |events| && events[m].Admitted? && events[m].key == key {
      var i := LastOf(events, key, m);
      if HasFailed(events, i) {
        FailedIsFree(events, i, key);
      } else {
        EndingsAreOwn(events, i, |events|);
        StillHeld(events, i, |events|);
        assert events[..|events|] == events;
      }
      forall k: nat | LatestAdmission(events, key, k) ensures k == i {
      }
    } else {
      NeverAdmitted(events, key);
      assert forall k: nat :: LatestAdmission(events, key, k) ==> events[k].Admitted? && events[k].key == key;
    }
  }

  lemma {:induction false} LastOf(events: seq<Event>, key: string, m: nat) returns (i: nat)
    requires m < |events| && events[m].Admitted? && events[m].key == key
    ensures LatestAdmission(events, key, i)
    decreases |events| - m
  {
    if n :| m < n < |events| && events[n].Admitted? && events[n].key == key {
      i := LastOf(events, key, n);
    } else {
      i := m;
    }
  }

  // ------------------------------------------------------------------ a submission that ends after its hour

  /** The hour of the first submission is over; the second is on its way. */
  ghost predicate ThirdTooEarly(events: seq<Event>) {
    |events| == 4 && NextWithinHold(events, 1, 3) && !HasFailed(events, 1)
  }

  /**
   Without that condition the relay admits a third submission while the second, with the
   same request id, is on its way: the first one ends after its hour, and whether its mail
   was confirmed or refused, the request id the second one holds is free again.
   */
  method LateEndingReleasesAnother(key: string, ip: string, email: string, confirmed: bool) returns (relay: Relay, third: Opening)
    ensures relay.Valid() && third.Admit? && ThirdTooEarly(relay.events)
    ensures InClockOrder(relay.events) && !Prompt(relay.events)
  {
    hide Relay.Valid, Held, HasRoomFor, ThirdTooEarly, Prompt, InClockOrder;
    relay := AdmitTwice(key, ip, email);
    var a, b := Admitted(0.0, key, ip, email), Admitted(3600.0, key, ip, email);
    ghost var e := if confirmed then Sent(0, 3600.0, Reply(true)) else Failed(0, 3600.0);
    if confirmed {
      relay.Complete(a, Reply(true), 0, 3600.0);
    } else {
      relay.Release(a, 0, 3600.0);
    }
    assert relay.events == [a, b, e];
    FewAdmissions([a, b, e], 3601.0, ip, email);
    HeldByNone(a, b, e, key, 3601.0);
    third := relay.Begin(3601.0, key, ip, email);
    assert relay.events == [a, b, e, Admitted(3601.0, key, ip, email)];
    LateHistory(key, ip, email, e);
  }

  method AdmitTwice(key: string, ip: string, email: string) returns (relay: Relay)
    ensures fresh(relay) && relay.Valid() && relay.clock == 3600.0
    ensures relay.events == [Admitted(0.0, key, ip, email), Admitted(3600.0, key, ip, email)]
  {
    hide Relay.Valid, Held, HasRoomFor;
    relay := new Relay(0.0);
    var a := Admitted(0.0, key, ip, email);
    FewAdmissions([], 0.0, ip, email);
    FreeAtFirst(key);
    var first := relay.Begin(0.0, key, ip, email);
    assert relay.events == [a];
    FewAdmissions([a], 3600.0, ip, email);
    HeldByOne(a, key, 3600.0);
    var second := relay.Begin(3600.0, key, ip, email);
  }

  lemma LateHistory(key: string, ip: string, email: string, e: Event)
    requires Ends(e) && e.of == 0 && e.at == 3600.0
    ensures
      var events := [Admitted(0.0, key, ip, email), Admitted(3600.0, key, ip, email), e, Admitted(3601.0, key, ip, email)];
      ThirdTooEarly(events) && InClockOrder(events) && !Prompt(events)
  {
    var events := [Admitted(0.0, key, ip, email), Admitted(3600.0, key, ip, email), e, Admitted(3601.0, key, ip, email)];
    assert Ends(events[2]) && events[2].of == 0;
  }

  lemma FreeAtFirst(key: string)
    ensures !Held([], key, 0.0)
  {
  }

  lemma HeldByOne(a: Event, key: string, now: real)
    requires a.Admitted? && a.key == key && now - a.time >= HOLD
    ensures !Held([a], key, now)
  {
    HolderSnoc([], a, key);
    assert [] + [a] == [a];
  }

  lemma HeldByNone(a: Event, b: Event, e: Event, key: string, now: real)
    requires a.Admitted? && a.key == key && b.Admitted? && Ends(e) && e.of == 0 && now - a.time >= HOLD
    ensures !Held([a, b, e], key, now)
  {
    HolderSnoc([a, b], e, key);
    assert [a, b] + [e] == [a, b, e];
    assert Concerns([a, b], 0, key);
  }

  lemma {:induction false} TimesBound(events: seq<Event>, b: Bucket)
    ensures |Times(events, b)| <= |events|
  {
    if events != [] { TimesBound(events[..|events| - 1], b); }
  }

  lemma {:induction false} RecentBound(ts: seq<real>, now: real, age: real)
    ensures |Recent(ts, now, age)| <= |ts|
    decreases |ts|
  {
    if ts != [] { RecentBound(ts[1..], now, age); }
  }

  /** Two admissions leave room in every bucket. */
  lemma FewAdmissions(events: seq<Event>, now: real, ip: string, email: string)
    requires |events| <= 2 || (|events| == 3 && !events[2].Admitted?)
    ensures HasRoomFor(events, now, ip, email)
  {
    hide Times, Recent;
    forall b | b in {Ip(ip), Email(email), Global} ensures |Recent(Times(events, b), now, Period(b))| < Quota(b) {
      if |events| == 3 {
        assert events == events[..2] + [events[2]];
        TimesSnoc(events[..2], events[2], b);
        TimesBound(events[..2], b);
      } else {
        TimesBound(events, b);
      }
      RecentBound(Times(events, b), now, Period(b));
    }
  }
}

/**
 Restoring an archive batch (l4media/archive/restore.py) through its manifest.
 */
module MediaRestore {
  import opened StoreBytes
  import opened Interruption
  import opened MediaArchive

  // ------------------------------------------------------------------ records that come back

  function FixedKeys(k: Kind): set<string> {
    if k.Samples? then
      {"rtp_packets", "rtcp_packets", "bytes", "bitrate_kbps", "packet_loss_pct", "jitter_ms", "rtt_ms", "fps",
       "frame_width", "frame_height"}
    else {"event_type", "metric_value", "reason"}
  }

  /** Restore keeps the fixed keys only; `missing` stands for their defaults. */
  function Restored(k: Kind, r: Record, missing: string -> int): (q: Record)
    ensures q.id == r.id && q.occurred == r.occurred && q.envelope == r.envelope && q.payload.Keys == FixedKeys(k)
    ensures forall key :: key in FixedKeys(k) ==> q.payload[key] == if key in r.payload then r.payload[key] else missing(key)
  {
    r.(payload := map key | key in FixedKeys(k) :: if key in r.payload then r.payload[key] else missing(key))
  }

  predicate HasFixedKeys(k: Kind, r: Record) {
    r.payload.Keys == FixedKeys(k)
  }

  lemma RestoredIsSame(k: Kind, r: Record, missing: string -> int)
    ensures Restored(k, r, missing) == r <==> HasFixedKeys(k, r)
  {
    assert Restored(k, r, missing).payload.Keys == FixedKeys(k);
    if HasFixedKeys(k, r) {
      assert Restored(k, r, missing).payload == r.payload;
    }
  }

  /** A stream sample as the store records it comes back unchanged. */
  lemma SampleComesBack(id: string, occurred: nat, envelope: string, packets: int, control: int, size: int, bitrate: int, loss: int, jitter: int,
                        delay: int, fps: int, width: int, height: int, missing: string -> int)
    ensures
      var r := Record(id, occurred, envelope,
                      map["rtp_packets" := packets, "rtcp_packets" := control, "bytes" := size, "bitrate_kbps" := bitrate,
                          "packet_loss_pct" := loss, "jitter_ms" := jitter, "rtt_ms" := delay, "fps" := fps, "frame_width" := width,
                          "frame_height" := height]);
      Restored(Samples, r, missing) == r
  {
    var r := Record(id, occurred, envelope,
                    map["rtp_packets" := packets, "rtcp_packets" := control, "bytes" := size, "bitrate_kbps" := bitrate,
                        "packet_loss_pct" := loss, "jitter_ms" := jitter, "rtt_ms" := delay, "fps" := fps, "frame_width" := width,
                        "frame_height" := height]);
    RestoredIsSame(Samples, r, missing);
    assert r.payload.Keys == FixedKeys(Samples);
  }

  /** And so does a quality event. */
  lemma QualityEventComesBack(id: string, occurred: nat, envelope: string, kind: int, metric: int, reason: int, missing: string -> int)
    ensures
      var r := Record(id, occurred, envelope, map["event_type" := kind, "metric_value" := metric, "reason" := reason]);
      Restored(Quality, r, missing) == r
  {
    var r := Record(id, occurred, envelope, map["event_type" := kind, "metric_value" := metric, "reason" := reason]);
    RestoredIsSame(Quality, r, missing);
    assert r.payload.Keys == FixedKeys(Quality);
  }

  function AddAll(t: Table, month: nat, k: Kind, rs: seq<Record>, missing: string -> int): Table
    decreases |rs|
  {
    if rs == [] then t else Add(AddAll(t, month, k, rs[..|rs| - 1], missing), month, Restored(k, rs[|rs| - 1], missing))
  }

  function RowsFor(month: nat, k: Kind, rs: seq<Record>, first: nat, missing: string -> int): (rows: seq<Row>)
    ensures |rows| == |rs| && forall i :: 0 <= i < |rs| ==> rows[i] == Row(first + i, month, Restored(k, rs[i], missing))
  {
    seq(|rs|, i requires 0 <= i < |rs| => Row(first + i, month, Restored(k, rs[i], missing)))
  }

  predicate DistinctIds(rs: seq<Record>) {
    forall i, j :: 0 <= i < j < |rs| ==> rs[i].id != rs[j].id
  }

  /** Into an empty table, distinct records become consecutive rows. */
  lemma {:induction false} AddAllFresh(month: nat, k: Kind, rs: seq<Record>, first: nat, missing: string -> int)
    requires DistinctIds(rs)
    ensures AddAll(Table([], first), month, k, rs, missing) == Table(RowsFor(month, k, rs, first, missing), first + |rs|)
    decreases |rs|
  {
    hide Restored, Keeping, FixedKeys;
    if rs != [] {
      var front, last := rs[..|rs| - 1], rs[|rs| - 1];
      AddAllFresh(month, k, front, first, missing);
      var rows, r := RowsFor(month, k, front, first, missing), Restored(k, last, missing);
      forall x | x in rows ensures x.record.id != r.id {
        var i :| 0 <= i < |front| && rows[i] == x;
      }
      KeepAll(rows, (x: Row) => x.record.id != r.id);
      assert RowsFor(month, k, rs, first, missing) == rows + [Row(first + |front|, month, r)];
    }
  }

  /**
   Restoring what was fetched into an empty store and fetching again gives the same records
   in the same order, each reduced to the fixed keys.
   */
  lemma RestoreGivesBack(t: Table, month: nat, k: Kind, first: nat, missing: string -> int)
    requires TableOk(t)
    ensures
      var rs := Fetch(t, month);
      var back := Fetch(AddAll(Table([], first), month, k, rs, missing), month);
      && |back| == |rs| && (forall i :: 0 <= i < |rs| ==> back[i] == Restored(k, rs[i], missing))
      && (back == rs <==> forall i :: 0 <= i < |rs| ==> HasFixedKeys(k, rs[i]))
  {
    hide Order, Keeping, HasFixedKeys, Restored, FixedKeys;
    var rs := Fetch(t, month);
    FetchIsComplete(t, month);
    AddAllFresh(month, k, rs, first, missing);
    var rows := RowsFor(month, k, rs, first, missing);
    KeepAll(rows, (x: Row) => x.month == month);
    RestoredKeepsTime(month, k, rs, first, missing);
    OrderOfOrdered(rows);
    forall i | 0 <= i < |rs| ensures Restored(k, rs[i], missing) == rs[i] <==> HasFixedKeys(k, rs[i]) {
      RestoredIsSame(k, rs[i], missing);
    }
  }

  lemma RestoredKeepsTime(month: nat, k: Kind, rs: seq<Record>, first: nat, missing: string -> int)
    requires forall i, j :: 0 <= i < j < |rs| ==> rs[i].occurred <= rs[j].occurred
    ensures InOrder(RowsFor(month, k, rs, first, missing))
  {
  }

  // ------------------------------------------------------------------ restore_batch

  /** What the caller asks for: record types, a limit on restored records, and the envelope check. */
  datatype Options = Options(types: set<Kind>, limit: Option<nat>, valid: Record -> bool)

  datatype Ending = Finished | LimitReached | Invalid

  datatype Progress = Progress(table: Table, total: nat, ending: Ending)

  function FirstInvalid(rs: seq<Record>, valid: Record -> bool): (n: nat)
    ensures n <= |rs| && (forall i :: 0 <= i < n ==> valid(rs[i])) && (n < |rs| ==> !valid(rs[n]))
  {
    if rs == [] || !valid(rs[0]) then 0 else 1 + FirstInvalid(rs[1..], valid)
  }

  /** How many more records may be restored; the limit is looked at only after a record was. */
  function Room(o: Options, total: nat): Option<nat> {
    match o.limit
    case None => None
    case Some(limit) => Some(if limit > total then limit - total else 1)
  }

  /** One file: its leading valid lines, up to the limit, are added; unwanted types are only validated. */
  function FileRestored(t: Table, total: nat, month: nat, k: Kind, rs: seq<Record>, o: Options, missing: string -> int): Progress {
    var valid, room := FirstInvalid(rs, o.valid), Room(o, total);
    var rest := if valid < |rs| then Invalid else Finished;
    if k !in o.types then Progress(t, total, rest)
    else if room.Some? && room.value <= valid then
      Progress(AddAll(t, month, k, rs[..room.value], missing), total + room.value, LimitReached)
    else Progress(AddAll(t, month, k, rs[..valid], missing), total + valid, rest)
  }

  method RestoreFile(t0: Table, total0: nat, month: nat, k: Kind, rs: seq<Record>, o: Options, missing: string -> int)
    returns (p: Progress)
    ensures p == FileRestored(t0, total0, month, k, rs, o, missing)
  {
    hide AddAll;
    var t, total, n := t0, total0, 0;
    ghost var valid, room := FirstInvalid(rs, o.valid), Room(o, total0);
    assert rs[..0] == [];
    NothingAdded(t0, month, k, missing);
    while n < |rs|
      invariant n <= |rs| && n <= valid
      invariant k in o.types ==> t == AddAll(t0, month, k, rs[..n], missing) && total == total0 + n && (room.Some? ==> n < room.value)
      invariant k !in o.types ==> t == t0 && total == total0
    {
      var r := rs[n];
      if !o.valid(r) {
        return Progress(t, total, Invalid);
      }
      if k in o.types {
        OneAdded(t0, month, k, rs, n, missing);
        t, total := Add(t, month, Restored(k, r, missing)), total + 1;
        if o.limit.Some? && total >= o.limit.value {
          return Progress(t, total, LimitReached);
        }
      }
      n := n + 1;
    }
    return Progress(t, total, Finished);
  }

  lemma NothingAdded(t: Table, month: nat, k: Kind, missing: string -> int)
    ensures AddAll(t, month, k, [], missing) == t
  {
  }

  lemma OneAdded(t: Table, month: nat, k: Kind, rs: seq<Record>, n: nat, missing: string -> int)
    requires n < |rs|
    ensures AddAll(t, month, k, rs[..n + 1], missing) == Add(AddAll(t, month, k, rs[..n], missing), month, Restored(k, rs[n], missing))
  {
    assert rs[..n + 1][..n] == rs[..n];
  }

  /** What a restore reads: the files the manifest names. */
  function Restorable(b: Batch, kind: Kind): seq<Record> {
    if !b.listed then [] else if kind.Samples? then b.samples else b.quality
  }

  datatype Restoration = Restoration(samples: Table, quality: Table, total: nat, ok: bool)

  /** Both files in order; an invalid record ends the restore with what was added so far. */
  function BatchRestored(samples: Table, quality: Table, b: Batch, o: Options, missing: string -> int): Restoration {
    var first := FileRestored(samples, 0, b.month, Samples, Restorable(b, Samples), o, missing);
    if first.ending.Invalid? then Restoration(first.table, quality, first.total, false)
    else if !b.listed || (o.limit.Some? && first.total >= o.limit.value) then Restoration(first.table, quality, first.total, true)
    else
      var second := FileRestored(quality, first.total, b.month, Quality, Restorable(b, Quality), o, missing);
      Restoration(first.table, second.table, second.total, !second.ending.Invalid?)
  }

  method RestoreBatch(samples: Table, quality: Table, b: Batch, o: Options, missing: string -> int) returns (r: Restoration)
    ensures r == BatchRestored(samples, quality, b, o, missing)
  {
    hide AddAll;
    if !b.listed {
      NothingAdded(samples, b.month, Samples, missing);
      assert Restorable(b, Samples)[..0] == [];
      return Restoration(samples, quality, 0, true);
    }
    var first := RestoreFile(samples, 0, b.month, Samples, b.samples, o, missing);
    if first.ending.Invalid? {
      return Restoration(first.table, quality, first.total, false);
    }
    if o.limit.Some? && first.total >= o.limit.value {
      return Restoration(first.table, quality, first.total, true);
    }
    var second := RestoreFile(quality, first.total, b.month, Quality, b.quality, o, missing);
    return Restoration(first.table, second.table, second.total, !second.ending.Invalid?);
  }

  /** A restore of everything: both record types, no limit. */
  predicate Everything(o: Options) {
    o.types == {Samples, Quality} && o.limit.None?
  }

  predicate AllValid(rs: seq<Record>, valid: Record -> bool) {
    forall i :: 0 <= i < |rs| ==> valid(rs[i])
  }

  /** A restore of everything adds all records of both files exactly when every envelope is valid. */
  lemma RestoresEverything(samples: Table, quality: Table, b: Batch, o: Options, missing: string -> int)
    requires Everything(o)
    ensures
      var r := BatchRestored(samples, quality, b, o, missing);
      var s, q := Restorable(b, Samples), Restorable(b, Quality);
      && (r.ok <==> AllValid(s, o.valid) && AllValid(q, o.valid))
      && (r.ok ==> r == Restoration(AddAll(samples, b.month, Samples, s, missing), AddAll(quality, b.month, Quality, q, missing), |s| + |q|, true))
  {
    hide AddAll, FirstInvalid;
    var s, q := Restorable(b, Samples), Restorable(b, Quality);
    assert s[..|s|] == s && q[..|q|] == q;
    NothingAdded(samples, b.month, Samples, missing);
    NothingAdded(quality, b.month, Quality, missing);
  }

  /** With a limit, a restore never adds more than the limit, except that a limit of zero still adds one record. */
  lemma LimitIsKept(t: Table, month: nat, k: Kind, rs: seq<Record>, o: Options, missing: string -> int)
    requires o.limit.Some? && k in o.types && AllValid(rs, o.valid)
    ensures
      var most := if o.limit.value == 0 then 1 else o.limit.value;
      FileRestored(t, 0, month, k, rs, o, missing).total == if most <= |rs| then most else |rs|
  {
    hide AddAll;
  }

  /** Records of a type that was not asked for are never added. */
  lemma UnwantedAddsNothing(samples: Table, quality: Table, b: Batch, o: Options, missing: string -> int)
    ensures Samples !in o.types ==> BatchRestored(samples, quality, b, o, missing).samples == samples
    ensures Quality !in o.types ==> BatchRestored(samples, quality, b, o, missing).quality == quality
  {
    hide AddAll;
    NothingAdded(samples, b.month, Samples, missing);
    NothingAdded(quality, b.month, Quality, missing);
  }

  /** The limit counts over both files. */
  lemma TotalIsLimited(samples: Table, quality: Table, b: Batch, o: Options, missing: string -> int)
    requires o.limit.Some?
    ensures BatchRestored(samples, quality, b, o, missing).total <= if o.limit.value == 0 then 1 else o.limit.value
  {
    hide AddAll;
  }

  // ------------------------------------------------------------------ restoring what a run left

  lemma {:induction false} DeletionsDelete(kind: Kind, rows: seq<Row>)
    ensures forall k :: 0 <= k < |Deletions(kind, rows)| ==> Deletions(kind, rows)[k].Delete?
    decreases |rows|
  {
    if rows != [] { DeletionsDelete(kind, rows[|FirstChunk(rows)|..]); }
  }

  /** Every record reduced to the fixed keys. */
  function Reduced(k: Kind, rs: seq<Record>, missing: string -> int): (r: seq<Record>)
    ensures |r| == |rs| && forall i :: 0 <= i < |rs| ==> r[i] == Restored(k, rs[i], missing)
  {
    seq(|rs|, i requires 0 <= i < |rs| => Restored(k, rs[i], missing))
  }

  /** A month of one kind, restored from a batch into an empty store and fetched again. */
  function MonthBack(b: Batch, kind: Kind, first: nat, missing: string -> int): seq<Record> {
    Fetch(AddAll(Table([], first), b.month, kind, Restorable(b, kind), missing), b.month)
  }

  lemma NothingBack(b: Batch, kind: Kind, first: nat, missing: string -> int)
    requires !b.listed
    ensures Restorable(b, kind) == [] && MonthBack(b, kind, first, missing) == []
  {
    NothingAdded(Table([], first), b.month, kind, missing);
  }

  lemma {:induction false} ManifestKept(w: World, es: seq<Effect>, id: string)
    requires id in w.volume && w.volume[id].listed && w.volume[id].state != Failed
    requires forall k :: 0 <= k < |es| ==> es[k].Delete? || (es[k].Mark? && es[k].id == id && es[k].state != Failed)
    ensures id in ApplyAll(w, es).volume && ApplyAll(w, es).volume[id].listed && ApplyAll(w, es).volume[id].state != Failed
    decreases |es|
  {
    hide Without;
    if es != [] {
      assert forall k :: 0 <= k < |es[1..]| ==> es[1..][k] == es[k + 1];
      ManifestKept(Apply(w, es[0]), es[1..], id);
    }
  }

  /** After a run that promoted its batch, the manifest names the files unless its state is Failed. */
  lemma ManifestOf(w: World, month: nat, current: nat, id: string, purge: bool, kept: nat, raised: bool)
    requires WorldOk(w) && id !in w.volume && Eligible(month, current) && kept >= 1
    ensures
      var after := ApplyAll(w, RunEffects(w, month, current, id, purge, kept, raised));
      && Holds(w, after, id, month)
      && (after.volume[id].listed <==> after.volume[id].state != Failed)
      && (after.volume[id].state == Failed <==> raised && kept < |Script(w, month, current, id, purge)|)
  {
    hide Fetch, Deletions, OfMonth, WorldOk, Holds;
    var script, es := Script(w, month, current, id, purge), RunEffects(w, month, current, id, purge, kept, raised);
    var put := Put(id, BatchOf(w, month));
    var p := Apply(w, put);
    var cut := if kept >= |script| then script else script[..kept];
    assert script[0] == put && cut[0] == put;
    DeletionsDelete(Samples, OfMonth(w.samples.rows, month));
    DeletionsDelete(Quality, OfMonth(w.quality.rows, month));
    assert forall k :: 1 <= k < |script| ==> script[k].Delete? || (script[k].Mark? && script[k].id == id && script[k].state != Failed);
    var rest := cut[1..];
    assert forall k :: 0 <= k < |rest| ==> rest[k] == script[k + 1];
    ManifestKept(p, rest, id);
    OwnBatch(w, month, current, id, purge, kept, raised);
    if kept < |script| && raised {
      assert es == cut + [Mark(id, Failed, 0)];
      EffectsAppend(w, cut, [Mark(id, Failed, 0)]);
      ApplySingle(ApplyAll(w, cut), Mark(id, Failed, 0));
    } else {
      assert es == cut;
    }
  }

  /**
   Restoring a promoted batch through its manifest gives back the whole month, reduced to
   the fixed keys, exactly when the manifest's state is not Failed; a failed manifest gives
   back nothing.
   */
  lemma RestoreExactlyWhen(w: World, month: nat, current: nat, id: string, purge: bool, kept: nat, raised: bool, kind: Kind, first: nat,
                           missing: string -> int)
    requires WorldOk(w) && id !in w.volume && Eligible(month, current) && kept >= 1
    ensures
      var after := ApplyAll(w, RunEffects(w, month, current, id, purge, kept, raised));
      var archived := Fetch(TableOf(w, kind), month);
      && id in after.volume
      && (MonthBack(after.volume[id], kind, first, missing) == Reduced(kind, archived, missing) <==>
            after.volume[id].state != Failed || archived == [])
      && (after.volume[id].state == Failed ==> MonthBack(after.volume[id], kind, first, missing) == [])
  {
    hide Fetch, RunEffects, ApplyAll, AddAll, Restored, Eligible, TableOk;
    ManifestOf(w, month, current, id, purge, kept, raised);
    var b := ApplyAll(w, RunEffects(w, month, current, id, purge, kept, raised)).volume[id];
    var archived := Fetch(TableOf(w, kind), month);
    if b.listed {
      RestoreGivesBack(TableOf(w, kind), month, kind, first, missing);
      assert Restorable(b, kind) == archived;
      assert MonthBack(b, kind, first, missing) == Reduced(kind, archived, missing);
    } else {
      NothingBack(b, kind, first, missing);
    }
  }

  /**
   The loss: when a run raises after purging all samples of the month, they are gone from
   the hot store, still lie in the batch's file, and cannot be restored through its manifest.
   */
  lemma RaisedPurgeCannotBeRestored(w: World, month: nat, current: nat, id: string, kind: Kind, first: nat, missing: string -> int)
    requires WorldOk(w) && id !in w.volume && Eligible(month, current)
    ensures
      var kept := 2 + |Deletions(Samples, OfMonth(w.samples.rows, month))|;
      var after := ApplyAll(w, RunEffects(w, month, current, id, true, kept, true));
      && (forall x :: x in after.samples.rows ==> x.month != month)
      && id in after.volume && after.volume[id].samples == Fetch(w.samples, month)
      && Restorable(after.volume[id], kind) == [] && MonthBack(after.volume[id], kind, first, missing) == []
  {
    hide Fetch, Keeping, WorldOk, Eligible, Deletions, AddAll, BatchOf;
    var deletions := Deletions(Samples, OfMonth(w.samples.rows, month));
    var kept := 2 + |deletions|;
    var front := [Put(id, BatchOf(w, month)), Mark(id, Verified, 0)];
    var script := Script(w, month, current, id, true);
    assert front + deletions <= script && kept < |script|;
    assert script[..kept] == front + deletions;
    var es := RunEffects(w, month, current, id, true, kept, true);
    assert es == front + deletions + [Mark(id, Failed, 0)];
    var after := ApplyAll(w, es);
    ManifestOf(w, month, current, id, true, kept, true);
    NothingBack(after.volume[id], kind, first, missing);
    EffectsAppend(w, front + deletions, [Mark(id, Failed, 0)]);
    EffectsAppend(w, front, deletions);
    ApplyPair(w, front[0], front[1]);
    var v := ApplyAll(w, front);
    ChunksDeleteAll(v, Samples, OfMonth(w.samples.rows, month));
    ApplySingle(ApplyAll(v, deletions), Mark(id, Failed, 0));
    MonthGone(w, month, after);
  }

  lemma MonthGone(w: World, month: nat, after: World)
    requires WorldOk(w) && after.samples.rows == Without(w.samples.rows, Ids(OfMonth(w.samples.rows, month)))
    ensures forall x :: x in after.samples.rows ==> x.month != month
  {
    hide Keeping;
    MonthDeleted(w.samples, month);
    forall x | x in after.samples.rows ensures x.month != month {
      KeepingMembers(w.samples.rows, (z: Row) => z.month != month, x);
    }
  }
}

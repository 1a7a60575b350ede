/**
 The media telemetry archive (l4media/archive): hot tables, monthly batches on a volume, a
 chunked purge, and restore.  A run is a sequence of single effects; it may die after any of
 them, or fail and leave a failed manifest behind.
 */
module MediaArchive {
  import opened StoreBytes
  import opened Interruption

  /** A payload maps keys to opaque values. */
  datatype Record = Record(id: string, occurred: nat, envelope: string, payload: map<string, int>)

  /** Rows are kept in the order of their row ids. */
  datatype Row = Row(rowid: nat, month: nat, record: Record)

  datatype Table = Table(rows: seq<Row>, next: nat)

  datatype ManifestState = Prepared | Verified | Purged | Failed

  /** `listed` tells whether the manifest still names the data files. */
  datatype Batch = Batch(month: nat, samples: seq<Record>, quality: seq<Record>, listed: bool, state: ManifestState, purged: nat)

  datatype World = World(samples: Table, quality: Table, summaries: map<string, string>, volume: map<string, Batch>)

  // ------------------------------------------------------------------ tables

  predicate Before(x: Row, y: Row) {
    x.rowid < y.rowid && x.record.id != y.record.id
  }

  predicate RowsOk(rows: seq<Row>) {
    forall i, j :: 0 <= i < j < |rows| ==> Before(rows[i], rows[j])
  }

  /** Row ids increase and record ids are unique. */
  predicate TableOk(t: Table) {
    RowsOk(t.rows) && forall x :: x in t.rows ==> x.rowid < t.next
  }

  lemma OneMoreRow(rows: seq<Row>, x: Row)
    requires RowsOk(rows) && forall y :: y in rows ==> Before(y, x)
    ensures RowsOk(rows + [x])
  {
    hide Before;
    var more := rows + [x];
    forall i, j | 0 <= i < j < |more| ensures Before(more[i], more[j]) {
      assert more[i] == rows[i] && rows[i] in rows;
    }
  }

  function Keeping(rows: seq<Row>, keep: Row -> bool): seq<Row> {
    if rows == [] then []
    else Keeping(rows[..|rows| - 1], keep) + if keep(rows[|rows| - 1]) then [rows[|rows| - 1]] else []
  }

  lemma {:induction false} KeepingMembers(rows: seq<Row>, keep: Row -> bool, x: Row)
    ensures x in Keeping(rows, keep) <==> x in rows && keep(x)
  {
    if rows != [] {
      KeepingMembers(rows[..|rows| - 1], keep, x);
      assert rows == rows[..|rows| - 1] + [rows[|rows| - 1]];
    }
  }

  /** What is kept stays in order, with distinct rows and record ids. */
  lemma {:induction false} KeepingOk(rows: seq<Row>, keep: Row -> bool)
    requires RowsOk(rows)
    ensures RowsOk(Keeping(rows, keep))
  {
    hide Before;
    if rows != [] {
      var front, last := rows[..|rows| - 1], rows[|rows| - 1];
      KeepingOk(front, keep);
      forall x | x in Keeping(front, keep) ensures Before(x, last) {
        KeepingMembers(front, keep, x);
        var k :| 0 <= k < |front| && front[k] == x;
        assert Before(rows[k], rows[|rows| - 1]);
      }
      OneMoreRow(Keeping(front, keep), last);
    }
  }

  /** INSERT OR REPLACE: a row with the same record id goes, the new row gets a new row id. */
  function Add(t: Table, month: nat, r: Record): Table {
    Table(Keeping(t.rows, (x: Row) => x.record.id != r.id) + [Row(t.next, month, r)], t.next + 1)
  }

  lemma AddOk(t: Table, month: nat, r: Record)
    requires TableOk(t)
    ensures TableOk(Add(t, month, r))
  {
    var keep := (x: Row) => x.record.id != r.id;
    var kept := Keeping(t.rows, keep);
    KeepingOk(t.rows, keep);
    forall x | x in kept ensures Before(x, Row(t.next, month, r)) {
      KeepingMembers(t.rows, keep, x);
    }
    OneMoreRow(kept, Row(t.next, month, r));
  }

  function OfMonth(rows: seq<Row>, month: nat): seq<Row> {
    Keeping(rows, (x: Row) => x.month == month)
  }

  function Without(rows: seq<Row>, ids: set<nat>): seq<Row> {
    Keeping(rows, (x: Row) => x.rowid !in ids)
  }

  // ------------------------------------------------------------------ fetching in order

  predicate Earlier(x: Row, y: Row) {
    x.record.occurred < y.record.occurred || (x.record.occurred == y.record.occurred && x.rowid < y.rowid)
  }

  predicate InOrder(rows: seq<Row>) {
    forall i, j :: 0 <= i < j < |rows| ==> Earlier(rows[i], rows[j])
  }

  function Insert(x: Row, s: seq<Row>): seq<Row> {
    if s == [] || Earlier(x, s[0]) then [x] + s else [s[0]] + Insert(x, s[1..])
  }

  /** ORDER BY occurred, id. */
  function Order(rows: seq<Row>): seq<Row> {
    if rows == [] then [] else Insert(rows[0], Order(rows[1..]))
  }

  function Records(rows: seq<Row>): (r: seq<Record>)
    ensures |r| == |rows| && forall i :: 0 <= i < |rows| ==> r[i] == rows[i].record
  {
    seq(|rows|, i requires 0 <= i < |rows| => rows[i].record)
  }

  function Fetch(t: Table, month: nat): seq<Record> {
    Records(Order(OfMonth(t.rows, month)))
  }

  lemma {:induction false} InsertKeeps(x: Row, s: seq<Row>)
    requires InOrder(s) && forall y :: y in s ==> y.rowid != x.rowid
    ensures InOrder(Insert(x, s)) && forall y :: y in Insert(x, s) <==> y == x || y in s
    decreases |s|
  {
    if s != [] && !Earlier(x, s[0]) {
      var rest := Insert(x, s[1..]);
      assert forall y :: y in s[1..] ==> y in s;
      InsertKeeps(x, s[1..]);
      assert forall y :: y in s <==> y == s[0] || y in s[1..];
      forall j | 0 <= j < |rest| ensures Earlier(s[0], rest[j]) {
        assert rest[j] in rest;
        if rest[j] != x {
          var k :| 0 <= k < |s[1..]| && s[1..][k] == rest[j];
          assert s[k + 1] == rest[j];
        } else {
          assert s[0] in s;
        }
      }
    } else if s != [] {
      forall j | 0 <= j < |s| ensures Earlier(x, s[j]) {
        if j > 0 { assert Earlier(s[0], s[j]); }
      }
    }
  }

  lemma {:induction false} OrderKeeps(rows: seq<Row>)
    requires RowsOk(rows)
    ensures InOrder(Order(rows)) && forall y :: y in Order(rows) <==> y in rows
    decreases |rows|
  {
    if rows != [] {
      OrderKeeps(rows[1..]);
      forall y | y in Order(rows[1..]) ensures y.rowid != rows[0].rowid {
        var k :| 0 <= k < |rows[1..]| && rows[1..][k] == y;
        assert Before(rows[0], rows[k + 1]);
      }
      InsertKeeps(rows[0], Order(rows[1..]));
      assert forall y :: y in rows <==> y == rows[0] || y in rows[1..];
    }
  }

  /** Rows that are in order already stay as they are. */
  lemma {:induction false} OrderOfOrdered(rows: seq<Row>)
    requires InOrder(rows)
    ensures Order(rows) == rows
    decreases |rows|
  {
    if rows != [] {
      OrderOfOrdered(rows[1..]);
      if |rows| > 1 { assert Earlier(rows[0], rows[1]); }
      assert rows == [rows[0]] + rows[1..];
    }
  }

  /**
   A fetch is exactly the rows of the month, by time and then by row id; this determines
   it completely.
   */
  lemma FetchIsExact(t: Table, month: nat) returns (rows: seq<Row>)
    requires TableOk(t)
    ensures forall x :: x in rows <==> x in t.rows && x.month == month
    ensures forall i, j :: 0 <= i < j < |rows| ==>
              rows[i].record.occurred < rows[j].record.occurred ||
              (rows[i].record.occurred == rows[j].record.occurred && rows[i].rowid < rows[j].rowid)
    ensures |Fetch(t, month)| == |rows| && forall i :: 0 <= i < |rows| ==> Fetch(t, month)[i] == rows[i].record
    ensures |rows| == |OfMonth(t.rows, month)|
  {
    hide Keeping;
    var here := (x: Row) => x.month == month;
    var mine := OfMonth(t.rows, month);
    rows := Order(mine);
    KeepingOk(t.rows, here);
    OrderKeeps(mine);
    OrderLength(mine);
    InOrderIs(rows);
    forall x ensures x in rows <==> x in t.rows && x.month == month {
      KeepingMembers(t.rows, here, x);
    }
  }

  lemma InOrderIs(rows: seq<Row>)
    requires InOrder(rows)
    ensures forall i, j :: 0 <= i < j < |rows| ==>
              rows[i].record.occurred < rows[j].record.occurred ||
              (rows[i].record.occurred == rows[j].record.occurred && rows[i].rowid < rows[j].rowid)
  {
    forall i, j | 0 <= i < j < |rows|
      ensures rows[i].record.occurred < rows[j].record.occurred ||
              (rows[i].record.occurred == rows[j].record.occurred && rows[i].rowid < rows[j].rowid)
    {
      assert Earlier(rows[i], rows[j]);
    }
  }

  lemma {:induction false} InsertLength(x: Row, s: seq<Row>)
    ensures |Insert(x, s)| == |s| + 1
  {
    if s != [] && !Earlier(x, s[0]) {
      InsertLength(x, s[1..]);
    }
  }

  lemma {:induction false} OrderLength(rows: seq<Row>)
    ensures |Order(rows)| == |rows|
  {
    if rows != [] {
      OrderLength(rows[1..]);
      InsertLength(rows[0], Order(rows[1..]));
    }
  }

  /** A record is fetched exactly when it is in a row of that month. */
  lemma FetchedExactlyWhen(t: Table, month: nat, r: Record)
    requires TableOk(t)
    ensures r in Fetch(t, month) <==> exists x :: x in t.rows && x.month == month && x.record == r
  {
    hide Fetch;
    var rows := FetchIsExact(t, month);
    if r in Fetch(t, month) {
      var k :| 0 <= k < |Fetch(t, month)| && Fetch(t, month)[k] == r;
      assert rows[k] in rows && rows[k].record == r;
    }
    if x :| x in t.rows && x.month == month && x.record == r {
      assert x in rows;
      var k :| 0 <= k < |rows| && rows[k] == x;
      assert Fetch(t, month)[k] == r;
    }
  }

  /** A month's records are all fetched, in order of time, and each record id once. */
  lemma FetchIsComplete(t: Table, month: nat)
    requires TableOk(t)
    ensures forall x :: x in t.rows && x.month == month ==> x.record in Fetch(t, month)
    ensures forall i, j :: 0 <= i < j < |Fetch(t, month)| ==> Fetch(t, month)[i].occurred <= Fetch(t, month)[j].occurred
    ensures forall i, j :: 0 <= i < j < |Fetch(t, month)| ==> Fetch(t, month)[i].id != Fetch(t, month)[j].id
  {
    var here := (x: Row) => x.month == month;
    var rows := OfMonth(t.rows, month);
    var sorted := Order(rows);
    KeepingOk(t.rows, here);
    OrderKeeps(rows);
    forall x | x in t.rows && x.month == month ensures x.record in Fetch(t, month) {
      KeepingMembers(t.rows, here, x);
      assert x in sorted;
      var k :| 0 <= k < |sorted| && sorted[k] == x;
      assert Fetch(t, month)[k] == x.record;
    }
    forall i, j | 0 <= i < j < |sorted| ensures sorted[i].record.id != sorted[j].record.id {
      assert Earlier(sorted[i], sorted[j]);
      assert sorted[i] in rows && sorted[j] in rows;
      var a :| 0 <= a < |rows| && rows[a] == sorted[i];
      var b :| 0 <= b < |rows| && rows[b] == sorted[j];
      assert a != b && (a < b ==> Before(rows[a], rows[b])) && (b < a ==> Before(rows[b], rows[a]));
    }
  }

  datatype Kind = Samples | Quality

  lemma {:induction false} KeepAll(rows: seq<Row>, keep: Row -> bool)
    requires forall x :: x in rows ==> keep(x)
    ensures Keeping(rows, keep) == rows
  {
    if rows != [] {
      KeepAll(rows[..|rows| - 1], keep);
      assert rows == rows[..|rows| - 1] + [rows[|rows| - 1]];
    }
  }

  // ------------------------------------------------------------------ archiving a month

  datatype Effect =
    | Remove(id: string)
    | Put(id: string, batch: Batch)
    | Mark(id: string, state: ManifestState, purged: nat)
    | Delete(kind: Kind, ids: set<nat>)

  function Apply(w: World, e: Effect): World {
    match e
    case Remove(id) => w.(volume := w.volume - {id})
    case Put(id, batch) => w.(volume := w.volume[id := batch])
    case Mark(id, state, purged) =>
      if id in w.volume then w.(volume := w.volume[id := w.volume[id].(state := state, purged := purged, listed := state != Failed)])
      else w
    case Delete(kind, ids) =>
      if kind.Samples? then w.(samples := w.samples.(rows := Without(w.samples.rows, ids)))
      else w.(quality := w.quality.(rows := Without(w.quality.rows, ids)))
  }

  function ApplyAll(w: World, es: seq<Effect>): World
    decreases |es|
  {
    if es == [] then w else ApplyAll(Apply(w, es[0]), es[1..])
  }

  const CHUNK: nat := 1000

  function Ids(rows: seq<Row>): set<nat> {
    set x | x in rows :: x.rowid
  }

  function FirstChunk(rows: seq<Row>): (r: seq<Row>)
    ensures r <= rows && (rows != [] ==> r != [])
  {
    if |rows| <= CHUNK then rows else rows[..CHUNK]
  }

  /** The deletions that empty a month of one table. */
  function Deletions(kind: Kind, rows: seq<Row>): seq<Effect>
    decreases |rows|
  {
    if rows == [] then []
    else [Delete(kind, Ids(FirstChunk(rows)))] + Deletions(kind, rows[|FirstChunk(rows)|..])
  }

  /** Only months that ended more than three full months ago are archived; months count from year 0. */
  predicate Eligible(month: nat, current: nat) {
    month <= current - 4
  }

  function BatchOf(w: World, month: nat): Batch {
    Batch(month, Fetch(w.samples, month), Fetch(w.quality, month), true, Prepared, 0)
  }

  function Purge(w: World, month: nat): seq<Effect> {
    Deletions(Samples, OfMonth(w.samples.rows, month)) + Deletions(Quality, OfMonth(w.quality.rows, month))
  }

  /** All effects of one complete run. */
  function Script(w: World, month: nat, current: nat, id: string, purge: bool): seq<Effect> {
    if !Eligible(month, current) then []
    else
      (if id in w.volume then [Remove(id)] else []) +
      ([Put(id, BatchOf(w, month)), Mark(id, Verified, 0)] +
       if !purge then []
       else Purge(w, month) + [Mark(id, Purged, |OfMonth(w.samples.rows, month)| + |OfMonth(w.quality.rows, month)|)])
  }

  /** How a run ends: it may die after `kept` effects, or raise there, which marks an existing batch as failed. */
  function RunEffects(w: World, month: nat, current: nat, id: string, purge: bool, kept: nat, raised: bool): seq<Effect> {
    var script := Script(w, month, current, id, purge);
    if kept >= |script| then script
    else script[..kept] + if raised then [Mark(id, Failed, 0)] else []
  }

  // ------------------------------------------------------------------ conservation

  predicate WorldOk(w: World) {
    TableOk(w.samples) && TableOk(w.quality)
  }

  /** Rows of one table: nothing new, other months untouched, and what is gone is in the file. */
  predicate Conserved(before: Table, after: Table, month: nat, held: bool, file: seq<Record>) {
    && after.next == before.next && RowsOk(after.rows)
    && (forall x :: x in after.rows ==> x in before.rows)
    && (forall x :: x in before.rows ==> x in after.rows || (x.month == month && held && x.record in file))
  }

  function FileOf(w: World, id: string, kind: Kind): seq<Record> {
    if id !in w.volume then [] else if kind.Samples? then w.volume[id].samples else w.volume[id].quality
  }

  predicate Covered(before: World, w: World, id: string, month: nat) {
    && w.summaries == before.summaries && w.volume - {id} == before.volume - {id}
    && Conserved(before.samples, w.samples, month, id in w.volume, FileOf(w, id, Samples))
    && Conserved(before.quality, w.quality, month, id in w.volume, FileOf(w, id, Quality))
  }

  /** The batch holds everything of the month. */
  predicate Holds(before: World, w: World, id: string, month: nat) {
    && id in w.volume && w.volume[id].month == month
    && w.volume[id].samples == Fetch(before.samples, month) && w.volume[id].quality == Fetch(before.quality, month)
  }

  function TableOf(w: World, kind: Kind): Table {
    if kind.Samples? then w.samples else w.quality
  }

  /** Effects of a run after its batch is in place. */
  predicate AfterPut(before: World, e: Effect, id: string, month: nat) {
    || (e.Mark? && e.id == id)
    || (e.Delete? && e.ids <= Ids(OfMonth(TableOf(before, e.kind).rows, month)))
  }

  /** Deleting rows of the month that are in the file. */
  lemma DeletionConserves(before: Table, after: Table, month: nat, file: seq<Record>, ids: set<nat>)
    requires TableOk(before) && Conserved(before, after, month, true, file) && file == Fetch(before, month)
    requires ids <= Ids(OfMonth(before.rows, month))
    ensures Conserved(before, after.(rows := Without(after.rows, ids)), month, true, file)
  {
    hide Fetch, Keeping;
    var keep := (x: Row) => x.rowid !in ids;
    KeepingOk(after.rows, keep);
    FetchIsComplete(before, month);
    forall x ensures x in Without(after.rows, ids) <==> x in after.rows && x.rowid !in ids {
      KeepingMembers(after.rows, keep, x);
    }
    forall x | x in after.rows && x.rowid in ids ensures x.month == month && x.record in file {
      SameRow(before, month, x);
    }
  }

  lemma SameRow(t: Table, month: nat, x: Row)
    requires TableOk(t) && x in t.rows && x.rowid in Ids(OfMonth(t.rows, month))
    ensures x.month == month
  {
    hide Keeping;
    var y :| y in OfMonth(t.rows, month) && y.rowid == x.rowid;
    KeepingMembers(t.rows, (z: Row) => z.month == month, y);
    var i :| 0 <= i < |t.rows| && t.rows[i] == x;
    var j :| 0 <= j < |t.rows| && t.rows[j] == y;
    assert i < j ==> Before(t.rows[i], t.rows[j]);
    assert j < i ==> Before(t.rows[j], t.rows[i]);
  }

  lemma EffectCovers(before: World, w: World, e: Effect, id: string, month: nat)
    requires WorldOk(before) && Covered(before, w, id, month) && Holds(before, w, id, month) && AfterPut(before, e, id, month)
    ensures Covered(before, Apply(w, e), id, month) && Holds(before, Apply(w, e), id, month)
  {
    hide Fetch, Without, OfMonth, Ids, Conserved, TableOk;
    if e.Delete? {
      if e.kind.Samples? {
        DeletionConserves(before.samples, w.samples, month, w.volume[id].samples, e.ids);
      } else {
        DeletionConserves(before.quality, w.quality, month, w.volume[id].quality, e.ids);
      }
    }
  }

  predicate AllAfterPut(before: World, es: seq<Effect>, id: string, month: nat) {
    forall k :: 0 <= k < |es| ==> AfterPut(before, es[k], id, month)
  }

  lemma {:induction false} EffectsCover(before: World, w: World, es: seq<Effect>, id: string, month: nat)
    requires WorldOk(before) && Covered(before, w, id, month) && Holds(before, w, id, month)
    requires AllAfterPut(before, es, id, month)
    ensures Covered(before, ApplyAll(w, es), id, month) && Holds(before, ApplyAll(w, es), id, month)
    decreases |es|
  {
    hide WorldOk, Covered, Holds, AfterPut, Apply;
    if es != [] {
      EffectCovers(before, w, es[0], id, month);
      assert forall k :: 0 <= k < |es[1..]| ==> es[1..][k] == es[k + 1];
      EffectsCover(before, Apply(w, es[0]), es[1..], id, month);
    }
  }

  lemma {:induction false} DeletionsAfterPut(before: World, kind: Kind, rows: seq<Row>, id: string, month: nat)
    requires forall x :: x in rows ==> x.rowid in Ids(OfMonth(TableOf(before, kind).rows, month))
    ensures AllAfterPut(before, Deletions(kind, rows), id, month)
    decreases |rows|
  {
    hide OfMonth, TableOf;
    if rows != [] {
      DeletionsAfterPut(before, kind, rows[|FirstChunk(rows)|..], id, month);
    }
  }

  lemma PurgeAfterPut(w: World, id: string, month: nat)
    ensures AllAfterPut(w, Purge(w, month), id, month)
  {
    hide OfMonth, Deletions, AfterPut;
    DeletionsAfterPut(w, Samples, OfMonth(w.samples.rows, month), id, month);
    DeletionsAfterPut(w, Quality, OfMonth(w.quality.rows, month), id, month);
  }

  lemma UnchangedIsCovered(w: World, id: string, month: nat)
    requires WorldOk(w)
    ensures Covered(w, w, id, month)
  {
  }

  lemma PutCovers(w: World, id: string, month: nat)
    requires WorldOk(w) && id !in w.volume
    ensures
      var p := Apply(w, Put(id, BatchOf(w, month)));
      Covered(w, p, id, month) && Holds(w, p, id, month)
  {
    hide Fetch;
  }

  /**
   With a fresh batch id, wherever a run dies or fails: every record that left the hot store
   is in the promoted batch, other months, summaries and all other batches are untouched.
   */
  lemma RunConserves(w: World, month: nat, current: nat, id: string, purge: bool, kept: nat, raised: bool)
    requires WorldOk(w) && id !in w.volume
    ensures
      var after := ApplyAll(w, RunEffects(w, month, current, id, purge, kept, raised));
      && Covered(w, after, id, month)
      && (!Eligible(month, current) || !purge ==> after.samples == w.samples && after.quality == w.quality)
  {
    hide WorldOk, Covered, Holds, Purge, BatchOf, AfterPut, Eligible;
    var script, es := Script(w, month, current, id, purge), RunEffects(w, month, current, id, purge, kept, raised);
    UnchangedIsCovered(w, id, month);
    if es != [] {
      var put, rest := Put(id, BatchOf(w, month)), es[1..];
      if es[0] == put {
        PutCovers(w, id, month);
        PurgeAfterPut(w, id, month);
        MarksAfterPut(w, id, month);
        assert AllAfterPut(w, rest, id, month);
        EffectsCover(w, Apply(w, put), rest, id, month);
        if !purge {
          MarksKeepTables(Apply(w, put), rest);
        }
      } else {
        assert es == [Mark(id, Failed, 0)];
        assert Apply(w, es[0]) == w && es[1..] == [];
      }
    }
  }

  lemma MarksAfterPut(w: World, id: string, month: nat)
    ensures forall state, n: nat :: AfterPut(w, Mark(id, state, n), id, month)
  {
  }

  lemma {:induction false} MarksKeepTables(w: World, es: seq<Effect>)
    requires forall k :: 0 <= k < |es| ==> es[k].Mark?
    ensures ApplyAll(w, es).samples == w.samples && ApplyAll(w, es).quality == w.quality
    decreases |es|
  {
    if es != [] {
      assert forall k :: 0 <= k < |es[1..]| ==> es[1..][k] == es[k + 1];
      MarksKeepTables(Apply(w, es[0]), es[1..]);
    }
  }

  lemma RecentMonthsStay(w: World, month: nat, current: nat, id: string, purge: bool, kept: nat, raised: bool, x: Row)
    requires WorldOk(w) && id !in w.volume && x.month + 3 >= current
    ensures
      var after := ApplyAll(w, RunEffects(w, month, current, id, purge, kept, raised));
      (x in after.samples.rows <==> x in w.samples.rows) && (x in after.quality.rows <==> x in w.quality.rows)
  {
    hide RunEffects, ApplyAll, WorldOk, FileOf;
    RunConserves(w, month, current, id, purge, kept, raised);
  }

  // ------------------------------------------------------------------ a complete run

  lemma {:induction false} EffectsAppend(w: World, a: seq<Effect>, b: seq<Effect>)
    ensures ApplyAll(w, a + b) == ApplyAll(ApplyAll(w, a), b)
    decreases |a|
  {
    hide Apply;
    if a == [] {
      assert a + b == b;
    } else {
      assert (a + b)[1..] == a[1..] + b;
      EffectsAppend(Apply(w, a[0]), a[1..], b);
    }
  }

  lemma {:induction false} KeepingTwice(rows: seq<Row>, p: Row -> bool, q: Row -> bool, both: Row -> bool)
    requires forall x :: both(x) <==> p(x) && q(x)
    ensures Keeping(Keeping(rows, p), q) == Keeping(rows, both)
    decreases |rows|
  {
    if rows != [] {
      var front, last := rows[..|rows| - 1], rows[|rows| - 1];
      KeepingTwice(front, p, q, both);
      var k := Keeping(front, p);
      if p(last) {
        assert Keeping(rows, p) == k + [last] && (k + [last])[..|k|] == k;
      } else {
        assert Keeping(rows, p) == k;
      }
    }
  }

  lemma {:induction false} KeepingAgree(rows: seq<Row>, p: Row -> bool, q: Row -> bool)
    requires forall x :: x in rows ==> (p(x) <==> q(x))
    ensures Keeping(rows, p) == Keeping(rows, q)
    decreases |rows|
  {
    if rows != [] {
      KeepingAgree(rows[..|rows| - 1], p, q);
    }
  }

  function Deleted(w: World, kind: Kind, ids: set<nat>): World {
    Apply(w, Delete(kind, ids))
  }

  lemma DeleteTwice(w: World, kind: Kind, a: set<nat>, b: set<nat>)
    ensures Deleted(Deleted(w, kind, a), kind, b) == Deleted(w, kind, a + b)
  {
    var p, q, both := (x: Row) => x.rowid !in a, (x: Row) => x.rowid !in b, (x: Row) => x.rowid !in a + b;
    KeepingTwice(w.samples.rows, p, q, both);
    KeepingTwice(w.quality.rows, p, q, both);
  }

  lemma WithoutNone(rows: seq<Row>)
    ensures Without(rows, {}) == rows
  {
    var none: set<nat> := {};
    KeepAll(rows, (x: Row) => x.rowid !in none);
    assert Without(rows, none) == rows;
  }

  lemma DeleteNothing(w: World, kind: Kind)
    ensures Deleted(w, kind, {}) == w
  {
    hide Without;
    WithoutNone(w.samples.rows);
    WithoutNone(w.quality.rows);
  }

  lemma NoIds()
    ensures Ids([]) == {}
  {
  }

  lemma IdsAppend(a: seq<Row>, b: seq<Row>)
    ensures Ids(a + b) == Ids(a) + Ids(b)
  {
    assert forall x :: x in a + b <==> x in a || x in b;
  }

  lemma DeletionsStep(kind: Kind, rows: seq<Row>)
    requires rows != []
    ensures
      var c := FirstChunk(rows);
      && rows == c + rows[|c|..] && |rows[|c|..]| < |rows|
      && Deletions(kind, rows) == [Delete(kind, Ids(c))] + Deletions(kind, rows[|c|..])
  {
    hide Ids;
  }

  lemma NoDeletions(w: World, kind: Kind)
    ensures ApplyAll(w, Deletions(kind, [])) == Deleted(w, kind, Ids([]))
  {
    hide Apply;
    NoIds();
    DeleteNothing(w, kind);
  }

  /** Deleting chunk by chunk deletes exactly the rows of the list. */
  lemma {:induction false} ChunksDeleteAll(w: World, kind: Kind, rows: seq<Row>)
    ensures ApplyAll(w, Deletions(kind, rows)) == Deleted(w, kind, Ids(rows))
    decreases |rows|
  {
    hide Apply, ApplyAll, Ids, Deletions, FirstChunk;
    if rows == [] {
      NoDeletions(w, kind);
    } else {
      DeletionsStep(kind, rows);
      var c := FirstChunk(rows);
      var e, rest := Delete(kind, Ids(c)), rows[|c|..];
      EffectsAppend(w, [e], Deletions(kind, rest));
      ApplySingle(w, e);
      ChunksDeleteAll(Apply(w, e), kind, rest);
      DeleteTwice(w, kind, Ids(c), Ids(rest));
      IdsAppend(c, rest);
    }
  }

  lemma MonthDeleted(t: Table, month: nat)
    requires TableOk(t)
    ensures Without(t.rows, Ids(OfMonth(t.rows, month))) == Keeping(t.rows, (x: Row) => x.month != month)
  {
    hide Keeping;
    var ids := Ids(OfMonth(t.rows, month));
    forall x | x in t.rows ensures x.rowid !in ids <==> x.month != month {
      if x.rowid in ids { SameRow(t, month, x); }
      if x.month == month {
        KeepingMembers(t.rows, (z: Row) => z.month == month, x);
        assert x in OfMonth(t.rows, month);
      }
    }
    KeepingAgree(t.rows, (x: Row) => x.rowid !in ids, (x: Row) => x.month != month);
  }

  /** The outcome of a complete run. */
  function Archived(w: World, month: nat, id: string): World {
    w.(samples := w.samples.(rows := Keeping(w.samples.rows, (x: Row) => x.month != month)),
       quality := w.quality.(rows := Keeping(w.quality.rows, (x: Row) => x.month != month)),
       volume := w.volume[id := BatchOf(w, month).(state := Purged,
                    purged := |OfMonth(w.samples.rows, month)| + |OfMonth(w.quality.rows, month)|)])
  }

  lemma PurgeDone(w: World, before: World, month: nat)
    requires WorldOk(before) && w.samples == before.samples && w.quality == before.quality
    ensures ApplyAll(w, Purge(before, month)) ==
      w.(samples := w.samples.(rows := Keeping(w.samples.rows, (x: Row) => x.month != month)),
         quality := w.quality.(rows := Keeping(w.quality.rows, (x: Row) => x.month != month)))
  {
    hide Keeping, Deletions;
    var a, b := OfMonth(before.samples.rows, month), OfMonth(before.quality.rows, month);
    EffectsAppend(w, Deletions(Samples, a), Deletions(Quality, b));
    ChunksDeleteAll(w, Samples, a);
    ChunksDeleteAll(ApplyAll(w, Deletions(Samples, a)), Quality, b);
    MonthDeleted(before.samples, month);
    MonthDeleted(before.quality, month);
  }

  lemma ApplyPair(w: World, a: Effect, b: Effect)
    ensures ApplyAll(w, [a, b]) == Apply(Apply(w, a), b)
  {
    hide Apply;
    assert [a, b][1..] == [b] && [b][1..] == [];
    assert ApplyAll(Apply(Apply(w, a), b), []) == Apply(Apply(w, a), b);
  }

  lemma ApplySingle(w: World, a: Effect)
    ensures ApplyAll(w, [a]) == Apply(w, a)
  {
    hide Apply;
    assert [a][1..] == [];
    assert ApplyAll(Apply(w, a), []) == Apply(w, a);
  }

  /** A complete purging run empties the month and leaves one purged batch with all of it. */
  lemma RunCompletes(w: World, month: nat, current: nat, id: string)
    requires WorldOk(w) && id !in w.volume && month + 4 <= current
    ensures
      var after := ApplyAll(w, Script(w, month, current, id, true));
      && after == Archived(w, month, id)
      && (forall x :: x in after.samples.rows <==> x in w.samples.rows && x.month != month)
      && (forall x :: x in after.quality.rows <==> x in w.quality.rows && x.month != month)
      && after.volume[id].month == month && after.volume[id].state == Purged && after.volume[id].listed
      && after.volume[id].samples == Fetch(w.samples, month) && after.volume[id].quality == Fetch(w.quality, month)
      && after.volume[id].purged == |after.volume[id].samples| + |after.volume[id].quality|
  {
    RunEndsArchived(w, month, current, id);
    ArchivedIs(w, month, id);
  }

  lemma ArchivedIs(w: World, month: nat, id: string)
    requires WorldOk(w)
    ensures
      var after := Archived(w, month, id);
      && (forall x :: x in after.samples.rows <==> x in w.samples.rows && x.month != month)
      && (forall x :: x in after.quality.rows <==> x in w.quality.rows && x.month != month)
      && after.volume[id].purged == |Fetch(w.samples, month)| + |Fetch(w.quality, month)|
  {
    hide Keeping, Fetch;
    var gone := (x: Row) => x.month != month;
    forall x ensures x in Keeping(w.samples.rows, gone) <==> x in w.samples.rows && x.month != month {
      KeepingMembers(w.samples.rows, gone, x);
    }
    forall x ensures x in Keeping(w.quality.rows, gone) <==> x in w.quality.rows && x.month != month {
      KeepingMembers(w.quality.rows, gone, x);
    }
    var a := FetchIsExact(w.samples, month);
    var b := FetchIsExact(w.quality, month);
  }

  lemma RunEndsArchived(w: World, month: nat, current: nat, id: string)
    requires WorldOk(w) && id !in w.volume && Eligible(month, current)
    ensures ApplyAll(w, Script(w, month, current, id, true)) == Archived(w, month, id)
  {
    hide Keeping, BatchOf, Purge;
    var n := |OfMonth(w.samples.rows, month)| + |OfMonth(w.quality.rows, month)|;
    var front, purge, last := [Put(id, BatchOf(w, month)), Mark(id, Verified, 0)], Purge(w, month), [Mark(id, Purged, n)];
    assert Script(w, month, current, id, true) == front + purge + last;
    EffectsAppend(w, front + purge, last);
    EffectsAppend(w, front, purge);
    ApplyPair(w, front[0], front[1]);
    var v := ApplyAll(w, front);
    PurgeDone(v, w, month);
    ApplySingle(ApplyAll(v, purge), last[0]);
    assert BatchOf(w, month).listed by { BatchListed(w, month); }
  }

  /** A complete run without a purge leaves the tables alone and one verified batch. */
  lemma DryRunCompletes(w: World, month: nat, current: nat, id: string)
    requires id !in w.volume && month + 4 <= current
    ensures ApplyAll(w, Script(w, month, current, id, false)) ==
      w.(volume := w.volume[id := Batch(month, Fetch(w.samples, month), Fetch(w.quality, month), true, Verified, 0)])
  {
    hide Fetch;
    var front := [Put(id, BatchOf(w, month)), Mark(id, Verified, 0)];
    assert Script(w, month, current, id, false) == front;
    ApplyPair(w, front[0], front[1]);
  }

  /** A month that ended less than three full months ago is not touched at all. */
  lemma TooRecentDoesNothing(w: World, month: nat, current: nat, id: string, purge: bool, kept: nat, raised: bool)
    requires month + 4 > current
    ensures RunEffects(w, month, current, id, purge, kept, raised) == []
  {
  }

  /** No single deletion covers more than a thousand rows. */
  lemma {:induction false} ChunksAreBounded(kind: Kind, rows: seq<Row>, k: nat)
    requires k < |Deletions(kind, rows)|
    ensures Deletions(kind, rows)[k].Delete? && |Deletions(kind, rows)[k].ids| <= 1000
    decreases |rows|
  {
    hide Ids;
    var c := FirstChunk(rows);
    if k == 0 {
      FewIds(c);
    } else {
      ChunksAreBounded(kind, rows[|c|..], k - 1);
    }
  }

  lemma {:induction false} FewIds(rows: seq<Row>)
    ensures |Ids(rows)| <= |rows|
  {
    if rows == [] {
      NoIds();
    } else {
      var front, last := rows[..|rows| - 1], rows[|rows| - 1];
      FewIds(front);
      assert rows == front + [last];
      IdsAppend(front, [last]);
      assert Ids([last]) == {last.rowid};
    }
  }

  lemma BatchListed(w: World, month: nat)
    ensures BatchOf(w, month).listed
  {
  }

  // ------------------------------------------------------------------ histories

  datatype Action =
    | ArchiveMonth(month: nat, current: nat, id: string, purge: bool, kept: nat, raised: bool)
    | Ingest(kind: Kind, into: nat, record: Record)

  function Act(w: World, a: Action): World {
    match a
    case ArchiveMonth(month, current, id, purge, kept, raised) => ApplyAll(w, RunEffects(w, month, current, id, purge, kept, raised))
    case Ingest(kind, into, r) =>
      if kind.Samples? then w.(samples := Add(w.samples, into, r)) else w.(quality := Add(w.quality, into, r))
  }

  function ActAll(w: World, h: seq<Action>): World
    decreases |h|
  {
    if h == [] then w else ActAll(Act(w, h[0]), h[1..])
  }

  /** Every archive run uses a batch id of its own. */
  predicate FreshIds(w: World, h: seq<Action>)
    decreases |h|
  {
    h == [] || ((h[0].ArchiveMonth? ==> h[0].id !in w.volume) && FreshIds(Act(w, h[0]), h[1..]))
  }

  predicate InHot(w: World, kind: Kind, r: Record) {
    exists x :: x in TableOf(w, kind).rows && x.record == r
  }

  predicate InBatch(w: World, kind: Kind, r: Record) {
    exists id :: id in w.volume && r in FileOf(w, id, kind)
  }

  lemma ActKeepsOk(w: World, a: Action)
    requires WorldOk(w) && (a.ArchiveMonth? ==> a.id !in w.volume)
    ensures WorldOk(Act(w, a))
  {
    hide Keeping, RunEffects, ApplyAll, Add;
    match a
    case ArchiveMonth(month, current, id, purge, kept, raised) => RunConserves(w, month, current, id, purge, kept, raised);
    case Ingest(kind, into, r) =>
      AddOk(w.samples, into, r);
      AddOk(w.quality, into, r);
  }

  /** An ingested record is hot, in its month, under the largest row id. */
  lemma IngestIsKnown(w: World, kind: Kind, into: nat, r: Record)
    ensures
      var after := Act(w, Ingest(kind, into, r));
      && InHot(after, kind, r)
      && Row(TableOf(w, kind).next, into, r) in TableOf(after, kind).rows
  {
    hide Keeping;
    var x := Row(TableOf(w, kind).next, into, r);
    var t := TableOf(Act(w, Ingest(kind, into, r)), kind);
    assert t.rows[|t.rows| - 1] == x;
  }

  /** One action loses a record only by replacing it under the same record id. */
  lemma ActKeepsRecord(w: World, a: Action, kind: Kind, r: Record)
    requires WorldOk(w) && (a.ArchiveMonth? ==> a.id !in w.volume)
    requires InHot(w, kind, r) || InBatch(w, kind, r)
    ensures
      || InHot(Act(w, a), kind, r) || InBatch(Act(w, a), kind, r)
      || (a.Ingest? && a.kind == kind && a.record.id == r.id)
  {
    match a
    case ArchiveMonth(month, current, id, purge, kept, raised) =>
      RunKeepsRecord(w, month, current, id, purge, kept, raised, kind, r);
    case Ingest(k, into, q) =>
      IngestKeepsRecord(w, k, into, q, kind, r);
  }

  lemma IngestKeepsRecord(w: World, k: Kind, into: nat, q: Record, kind: Kind, r: Record)
    requires InHot(w, kind, r) || InBatch(w, kind, r)
    ensures
      var after := Act(w, Ingest(k, into, q));
      InHot(after, kind, r) || InBatch(after, kind, r) || (k == kind && q.id == r.id)
  {
    hide Keeping, FileOf;
    var after := Act(w, Ingest(k, into, q));
    if InBatch(w, kind, r) {
      var id :| id in w.volume && r in FileOf(w, id, kind);
      assert id in after.volume && FileOf(after, id, kind) == FileOf(w, id, kind) by { SameFile(w, after, id, kind); }
    } else {
      var x :| x in TableOf(w, kind).rows && x.record == r;
      if k == kind && q.id != r.id {
        KeepingMembers(TableOf(w, kind).rows, (y: Row) => y.record.id != q.id, x);
        assert x in TableOf(after, kind).rows;
      } else if k != kind {
        assert x in TableOf(after, kind).rows;
      }
    }
  }

  lemma SameFile(w: World, after: World, id: string, kind: Kind)
    requires id in w.volume && id in after.volume && after.volume[id] == w.volume[id]
    ensures FileOf(after, id, kind) == FileOf(w, id, kind)
  {
  }

  lemma RunKeepsRecord(w: World, month: nat, current: nat, id: string, purge: bool, kept: nat, raised: bool, kind: Kind, r: Record)
    requires WorldOk(w) && id !in w.volume && (InHot(w, kind, r) || InBatch(w, kind, r))
    ensures
      var after := Act(w, ArchiveMonth(month, current, id, purge, kept, raised));
      InHot(after, kind, r) || InBatch(after, kind, r)
  {
    hide RunEffects, ApplyAll, FileOf, WorldOk;
    RunConserves(w, month, current, id, purge, kept, raised);
    var after := Act(w, ArchiveMonth(month, current, id, purge, kept, raised));
    if InBatch(w, kind, r) {
      var b :| b in w.volume && r in FileOf(w, b, kind);
      assert b in w.volume - {id} && (w.volume - {id})[b] == w.volume[b];
      assert b in after.volume - {id};
      assert b in after.volume && after.volume[b] == w.volume[b];
      SameFile(w, after, b, kind);
    } else {
      var x :| x in TableOf(w, kind).rows && x.record == r;
      if x !in TableOf(after, kind).rows {
        assert id in after.volume && r in FileOf(after, id, kind);
      }
    }
  }

  /**
   Over every history of ingests and archive runs with fresh batch ids, each cut off or
   failing anywhere: a record once known is in the hot store or in a batch file ever after,
   unless an ingest with its own record id replaced it.
   */
  lemma {:induction false} NothingIsLost(w: World, h: seq<Action>, kind: Kind, r: Record)
    requires WorldOk(w) && FreshIds(w, h) && (InHot(w, kind, r) || InBatch(w, kind, r))
    ensures
      || InHot(ActAll(w, h), kind, r) || InBatch(ActAll(w, h), kind, r)
      || exists k :: 0 <= k < |h| && h[k].Ingest? && h[k].kind == kind && h[k].record.id == r.id
    decreases |h|
  {
    hide WorldOk, InHot, InBatch, Act;
    if h != [] {
      ActKeepsOk(w, h[0]);
      ActKeepsRecord(w, h[0], kind, r);
      var next := Act(w, h[0]);
      if InHot(next, kind, r) || InBatch(next, kind, r) {
        NothingIsLost(next, h[1..], kind, r);
        if k :| 0 <= k < |h[1..]| && h[1..][k].Ingest? && h[1..][k].kind == kind && h[1..][k].record.id == r.id {
          assert h[k + 1] == h[1..][k];
        }
      }
    }
  }

  // ------------------------------------------------------------------ a batch id that is in use

  predicate InOther(w: World, id: string, kind: Kind, r: Record) {
    exists b :: b in w.volume && b != id && r in FileOf(w, b, kind)
  }

  predicate KnownIn(w: World, kind: Kind, r: Record) {
    InHot(w, kind, r) || InBatch(w, kind, r)
  }

  lemma ReuseScript(w: World, month: nat, current: nat, id: string, purge: bool)
    requires id in w.volume && Eligible(month, current)
    ensures Script(w, month, current, id, purge) == [Remove(id)] + Script(Apply(w, Remove(id)), month, current, id, purge)
  {
    hide Fetch, Purge, Eligible;
    var removed := Apply(w, Remove(id));
    assert BatchOf(removed, month) == BatchOf(w, month);
    SamePurge(w, removed, month);
  }

  /** A run with a batch id in use first removes that batch and then is a run with a fresh id. */
  lemma ReuseIsRemoveThenRun(w: World, month: nat, current: nat, id: string, purge: bool, kept: nat, raised: bool)
    requires id in w.volume && Eligible(month, current) && kept >= 1
    ensures
      var removed := Apply(w, Remove(id));
      && id !in removed.volume && removed.samples == w.samples && removed.quality == w.quality
      && ApplyAll(w, RunEffects(w, month, current, id, purge, kept, raised)) ==
         ApplyAll(removed, RunEffects(removed, month, current, id, purge, kept - 1, raised))
  {
    hide Script, Eligible;
    ReuseScript(w, month, current, id, purge);
    var removed := Apply(w, Remove(id));
    var es, rest := RunEffects(w, month, current, id, purge, kept, raised), RunEffects(removed, month, current, id, purge, kept - 1, raised);
    assert es == [Remove(id)] + rest;
    assert es[0] == Remove(id) && es[1..] == rest;
  }

  lemma SamePurge(w: World, v: World, month: nat)
    requires v.samples == w.samples && v.quality == w.quality
    ensures Purge(v, month) == Purge(w, month)
  {
  }

  lemma RemovedKnows(w: World, id: string, kind: Kind, r: Record)
    ensures KnownIn(Apply(w, Remove(id)), kind, r) <==> InHot(w, kind, r) || InOther(w, id, kind, r)
  {
    var removed := Apply(w, Remove(id));
    assert removed.samples == w.samples && removed.quality == w.quality;
    if InBatch(removed, kind, r) {
      var b :| b in removed.volume && r in FileOf(removed, b, kind);
      SameFile(w, removed, b, kind);
    }
    if InOther(w, id, kind, r) {
      var b :| b in w.volume && b != id && r in FileOf(w, b, kind);
      SameFile(w, removed, b, kind);
    }
  }

  lemma FetchedIsHot(w: World, kind: Kind, month: nat, r: Record)
    requires WorldOk(w) && r in Fetch(TableOf(w, kind), month)
    ensures InHot(w, kind, r)
  {
    hide Keeping, Order;
    var t := TableOf(w, kind);
    var here := (x: Row) => x.month == month;
    var rows := OfMonth(t.rows, month);
    KeepingOk(t.rows, here);
    OrderKeeps(rows);
    var sorted := Order(rows);
    var k :| 0 <= k < |Fetch(t, month)| && Fetch(t, month)[k] == r;
    assert sorted[k] in sorted && sorted[k].record == r;
    KeepingMembers(t.rows, here, sorted[k]);
  }

  /** What a run's own batch holds after it. */
  lemma OwnBatch(w: World, month: nat, current: nat, id: string, purge: bool, kept: nat, raised: bool)
    requires WorldOk(w) && id !in w.volume
    ensures
      var after := ApplyAll(w, RunEffects(w, month, current, id, purge, kept, raised));
      id in after.volume ==> Holds(w, after, id, month)
  {
    hide WorldOk, Covered, Holds, Purge, BatchOf, AfterPut, Eligible;
    var es := RunEffects(w, month, current, id, purge, kept, raised);
    if es != [] {
      var put, rest := Put(id, BatchOf(w, month)), es[1..];
      if es[0] == put {
        PutCovers(w, id, month);
        PurgeAfterPut(w, id, month);
        MarksAfterPut(w, id, month);
        assert AllAfterPut(w, rest, id, month);
        EffectsCover(w, Apply(w, put), rest, id, month);
      } else {
        assert es == [Mark(id, Failed, 0)];
        assert Apply(w, es[0]) == w && es[1..] == [];
      }
    }
  }

  /** A run with a fresh id makes nothing up. */
  lemma RunInventsNothing(w: World, month: nat, current: nat, id: string, purge: bool, kept: nat, raised: bool, kind: Kind, r: Record)
    requires WorldOk(w) && id !in w.volume
    requires KnownIn(ApplyAll(w, RunEffects(w, month, current, id, purge, kept, raised)), kind, r)
    ensures KnownIn(w, kind, r)
  {
    hide RunEffects, ApplyAll, Fetch, WorldOk;
    RunConserves(w, month, current, id, purge, kept, raised);
    OwnBatch(w, month, current, id, purge, kept, raised);
    var after := ApplyAll(w, RunEffects(w, month, current, id, purge, kept, raised));
    if InHot(after, kind, r) {
      var x :| x in TableOf(after, kind).rows && x.record == r;
      assert x in TableOf(w, kind).rows;
    } else {
      var b :| b in after.volume && r in FileOf(after, b, kind);
      if b == id {
        FetchedIsHot(w, kind, month, r);
      } else {
        assert b in after.volume - {id} && (after.volume - {id})[b] == after.volume[b];
        assert b in w.volume - {id};
        assert b in w.volume && w.volume[b] == after.volume[b];
        SameFile(w, after, b, kind);
      }
    }
  }

  /**
   With a batch id in use, from the first effect on and wherever the run stops, exactly
   those records are still known that were hot or in another batch: whatever only the old
   batch held is lost.
   */
  lemma ReusedIdKeepsExactly(w: World, month: nat, current: nat, id: string, purge: bool, kept: nat, raised: bool, kind: Kind, r: Record)
    requires WorldOk(w) && id in w.volume && Eligible(month, current) && kept >= 1
    ensures
      var after := ApplyAll(w, RunEffects(w, month, current, id, purge, kept, raised));
      KnownIn(after, kind, r) <==> InHot(w, kind, r) || InOther(w, id, kind, r)
  {
    hide RunEffects, ApplyAll, InHot, InBatch, InOther, Apply, Eligible, TableOk;
    ReuseIsRemoveThenRun(w, month, current, id, purge, kept, raised);
    RemovedKnows(w, id, kind, r);
    var removed := Apply(w, Remove(id));
    var after := ApplyAll(w, RunEffects(w, month, current, id, purge, kept, raised));
    if KnownIn(removed, kind, r) {
      RunKeepsRecord(removed, month, current, id, purge, kept - 1, raised, kind, r);
    }
    if KnownIn(after, kind, r) {
      RunInventsNothing(removed, month, current, id, purge, kept - 1, raised, kind, r);
    }
  }

  /** The current month and the three before it are never touched by any run, whatever its batch id. */
  lemma RecentMonthsStayHot(w: World, month: nat, current: nat, id: string, purge: bool, kept: nat, raised: bool, x: Row)
    requires WorldOk(w) && x.month + 3 >= current
    ensures
      var after := ApplyAll(w, RunEffects(w, month, current, id, purge, kept, raised));
      (x in after.samples.rows <==> x in w.samples.rows) && (x in after.quality.rows <==> x in w.quality.rows)
  {
    hide Fetch, Purge, Covered, TableOk;
    if id !in w.volume {
      RecentMonthsStay(w, month, current, id, purge, kept, raised, x);
    } else if kept >= 1 && Eligible(month, current) {
      ReuseIsRemoveThenRun(w, month, current, id, purge, kept, raised);
      RecentMonthsStay(Apply(w, Remove(id)), month, current, id, purge, kept - 1, raised, x);
    } else {
      var es := RunEffects(w, month, current, id, purge, kept, raised);
      assert es == [] || es == [Mark(id, Failed, 0)];
      MarksKeepTables(w, es);
    }
  }

  // ------------------------------------------------------------------ the pipeline at work

  datatype Outcome = Done | Died | Raised

  /** All effects were made, or a proper part of them before the process died or an exception was raised. */
  ghost predicate Ran(w: World, es: seq<Effect>, o: Outcome, after: World) {
    if o.Done? then after == ApplyAll(w, es) else exists kept: nat :: kept < |es| && after == ApplyAll(w, Cut(es, kept))
  }

  lemma RanThen(w: World, a: seq<Effect>, o: Outcome, m: World, b: seq<Effect>, p: Outcome, after: World)
    requires Ran(w, a, o, m)
    requires if o.Done? then Ran(m, b, p, after) else p == o && after == m
    ensures Ran(w, a + b, p, after)
  {
    EffectsAppend(w, a, b);
    if !o.Done? {
      var kept: nat :| kept < |a| && m == ApplyAll(w, Cut(a, kept));
      assert Cut(a, kept) == Cut(a + b, kept);
    } else if !p.Done? {
      var kept: nat :| kept < |b| && after == ApplyAll(m, Cut(b, kept));
      EffectsAppend(w, a, Cut(b, kept));
      assert Cut(a + b, |a| + kept) == a + Cut(b, kept);
    }
  }

  lemma {:induction false} KeepingAppend(a: seq<Row>, b: seq<Row>, keep: Row -> bool)
    ensures Keeping(a + b, keep) == Keeping(a, keep) + Keeping(b, keep)
    decreases |b|
  {
    if b == [] {
      assert a + b == a;
    } else {
      assert (a + b)[..|a + b| - 1] == a + b[..|b| - 1];
      KeepingAppend(a, b[..|b| - 1], keep);
    }
  }

  lemma {:induction false} KeepNone(rows: seq<Row>, keep: Row -> bool)
    requires forall x :: x in rows ==> !keep(x)
    ensures Keeping(rows, keep) == []
  {
    if rows != [] { KeepNone(rows[..|rows| - 1], keep); }
  }

  /** After a chunk of a month is deleted, the rest of the month is what follows the chunk. */
  lemma RestOfMonth(rows: seq<Row>, month: nat)
    requires RowsOk(rows)
    ensures
      var c := FirstChunk(OfMonth(rows, month));
      && OfMonth(Without(rows, Ids(c)), month) == OfMonth(rows, month)[|c|..]
      && RowsOk(Without(rows, Ids(c)))
  {
    hide Keeping;
    var here := (x: Row) => x.month == month;
    var mine := OfMonth(rows, month);
    var c := FirstChunk(mine);
    var ids := Ids(c);
    var keep, both := (x: Row) => x.rowid !in ids, (x: Row) => x.month == month && x.rowid !in ids;
    KeepingOk(rows, keep);
    KeepingTwice(rows, keep, here, both);
    KeepingTwice(rows, here, keep, both);
    KeepingOk(rows, here);
    var rest := mine[|c|..];
    assert mine == c + rest;
    KeepingAppend(c, rest, keep);
    KeepNone(c, keep);
    forall x | x in rest ensures keep(x) {
      var j :| 0 <= j < |rest| && rest[j] == x;
      assert forall i :: 0 <= i < |c| ==> c[i] == mine[i] && Before(mine[i], mine[|c| + j]);
    }
    KeepAll(rest, keep);
  }

  class Pipeline {
    var world: World

    constructor (start: World)
      ensures world == start
    {
      world := start;
    }

    /** One effect; afterwards the process may be gone, before it an exception may be raised. */
    method Do(e: Effect) returns (o: Outcome)
      modifies this
      ensures Ran(old(world), [e], o, world)
    {
      hide Apply;
      ghost var w := world;
      ApplySingle(w, e);
      assert Cut([e], 0) == [] && ApplyAll(w, []) == w;
      if * {
        return Died;
      }
      if * {
        return Raised;
      }
      world := Apply(world, e);
      return Done;
    }

    /** purge_records_chunked for one table. */
    method PurgeTable(kind: Kind, month: nat) returns (o: Outcome, count: nat)
      requires RowsOk(TableOf(world, kind).rows)
      modifies this
      ensures Ran(old(world), Deletions(kind, OfMonth(TableOf(old(world), kind).rows, month)), o, world)
      ensures o.Done? ==> count == |OfMonth(TableOf(old(world), kind).rows, month)|
    {
      hide Ran, Keeping, ApplyAll;
      ghost var w := world;
      ghost var all := OfMonth(TableOf(w, kind).rows, month);
      ghost var done: seq<Effect> := [];
      RanNothing(w);
      count := 0;
      o := Done;
      while true
        invariant RowsOk(TableOf(world, kind).rows) && Ran(w, done, Done, world)
        invariant done + Deletions(kind, OfMonth(TableOf(world, kind).rows, month)) == Deletions(kind, all)
        invariant count + |OfMonth(TableOf(world, kind).rows, month)| == |all|
        decreases |OfMonth(TableOf(world, kind).rows, month)|
      {
        var mine := OfMonth(TableOf(world, kind).rows, month);
        if mine == [] {
          assert Deletions(kind, mine) == [] && done + [] == done;
          return Done, count;
        }
        var chunk := FirstChunk(mine);
        ghost var m, rest := world, Deletions(kind, mine[|chunk|..]);
        var e := Delete(kind, Ids(chunk));
        RestOfMonth(TableOf(world, kind).rows, month);
        o := Do(e);
        RanThen(w, done, Done, m, [e], o, world);
        assert done + Deletions(kind, mine) == done + [e] + rest;
        done := done + [e];
        if !o.Done? {
          RanThen(w, done, o, world, rest, o, world);
          return;
        }
        DoneIs(m, e, world);
        count := count + |chunk|;
      }
    }

    /** run_archive: whatever is left behind is what some run of the script leaves behind. */
    method RunArchive(month: nat, current: nat, id: string, purge: bool) returns (o: Outcome)
      requires WorldOk(world)
      modifies this
      ensures o.Done? ==> world == ApplyAll(old(world), Script(old(world), month, current, id, purge))
      ensures exists kept: nat, raised: bool :: world == ApplyAll(old(world), RunEffects(old(world), month, current, id, purge, kept, raised))
    {
      hide Ran, Purge, BatchOf, WorldOk, Apply;
      ghost var w := world;
      ghost var script := Script(w, month, current, id, purge);
      if !Eligible(month, current) {
        assert ApplyAll(w, script) == w;
        Finished(w, month, current, id, purge);
        return Done;
      }
      o := Lifecycle(month, current, id, purge);
      if o.Raised? && id in world.volume {
        RaisedEnding(w, month, current, id, purge, world);
        world := Apply(world, Mark(id, Failed, 0));
      } else if o.Raised? {
        RaisedEnding(w, month, current, id, purge, world);
        MarkAbsent(world, id);
      } else if o.Died? {
        DiedEnding(w, month, current, id, purge, world);
      } else {
        DoneEnding(w, script, world);
        Finished(w, month, current, id, purge);
      }
    }

    /** The guarded part: promotion, verification, purge. */
    method Lifecycle(month: nat, current: nat, id: string, purge: bool) returns (o: Outcome)
      requires WorldOk(world) && Eligible(month, current)
      modifies this
      ensures Ran(old(world), Script(old(world), month, current, id, purge), o, world)
    {
      hide Ran, Purge, BatchOf, WorldOk;
      ghost var w := world;
      var batch := BatchOf(world, month);
      ghost var done: seq<Effect> := if id in w.volume then [Remove(id)] else [];
      RanNothing(w);
      o := Done;
      if id in world.volume {
        o := Do(Remove(id));
      }
      ghost var script := Script(w, month, current, id, purge);
      ghost var front := [Put(id, batch), Mark(id, Verified, 0)];
      ghost var rest := if purge then Purge(w, month) + [PurgedMark(w, id, month)] else [];
      assert script == done + (front + rest);
      if !o.Done? {
        RanThen(w, done, o, world, front + rest, o, world);
        return;
      }
      ghost var m := world;
      SameTables(w, done, m, id);
      o := Promote(id, batch);
      RanThen(w, done, Done, m, front, o, world);
      assert script == done + front + rest;
      if !o.Done? {
        RanThen(w, done + front, o, world, rest, o, world);
        return;
      }
      if !purge {
        assert done + front + rest == done + front;
        return;
      }
      ghost var v := world;
      SameTables(m, front, v, id);
      o := PurgeMonth(id, month, w);
      RanThen(w, done + front, Done, v, rest, o, world);
    }

    method Promote(id: string, batch: Batch) returns (o: Outcome)
      modifies this
      ensures Ran(old(world), [Put(id, batch), Mark(id, Verified, 0)], o, world)
    {
      hide Ran;
      ghost var w := world;
      ghost var a, b := [Put(id, batch)], [Mark(id, Verified, 0)];
      assert a + b == [Put(id, batch), Mark(id, Verified, 0)];
      o := Do(Put(id, batch));
      ghost var first, m := o, world;
      if o.Done? {
        o := Do(Mark(id, Verified, 0));
      }
      RanThen(w, a, first, m, b, o, world);
    }

    method PurgeMonth(id: string, month: nat, ghost before: World) returns (o: Outcome)
      requires WorldOk(before) && world.samples == before.samples && world.quality == before.quality
      modifies this
      ensures Ran(old(world), Purge(before, month) + [PurgedMark(before, id, month)], o, world)
    {
      hide Ran, Deletions, OfMonth, Apply, ApplyAll;
      ghost var w := world;
      ghost var a, b := Deletions(Samples, OfMonth(before.samples.rows, month)), Deletions(Quality, OfMonth(before.quality.rows, month));
      ghost var mark := [PurgedMark(before, id, month)];
      var count, more := 0, 0;
      o, count := PurgeTable(Samples, month);
      ghost var o1, m := o, world;
      if o.Done? {
        DoneEnding(w, a, m);
        SamplesOnly(w, OfMonth(before.samples.rows, month));
        o, more := PurgeTable(Quality, month);
      }
      ghost var o2, n := o, world;
      RanThen(w, a, o1, m, b, o2, n);
      if o.Done? {
        o := Do(Mark(id, Purged, count + more));
      }
      RanThen(w, a + b, o2, n, mark, o, world);
    }
  }

  function PurgedMark(w: World, id: string, month: nat): Effect {
    Mark(id, Purged, |OfMonth(w.samples.rows, month)| + |OfMonth(w.quality.rows, month)|)
  }

  lemma RanNothing(w: World)
    ensures Ran(w, [], Done, w)
  {
  }

  lemma DoneIs(w: World, e: Effect, after: World)
    requires Ran(w, [e], Done, after)
    ensures after == Apply(w, e)
  {
    hide Apply;
    ApplySingle(w, e);
  }

  lemma DoneEnding(w: World, es: seq<Effect>, after: World)
    requires Ran(w, es, Done, after)
    ensures after == ApplyAll(w, es)
  {
  }

  /** Deleting samples leaves the quality table alone. */
  lemma SamplesOnly(w: World, rows: seq<Row>)
    ensures ApplyAll(w, Deletions(Samples, rows)).quality == w.quality
  {
    ChunksDeleteAll(w, Samples, rows);
  }

  /** Effects on the volume leave the tables alone. */
  lemma {:induction false} VolumeOnly(w: World, es: seq<Effect>)
    requires forall k :: 0 <= k < |es| ==> !es[k].Delete?
    ensures ApplyAll(w, es).samples == w.samples && ApplyAll(w, es).quality == w.quality
    decreases |es|
  {
    if es != [] {
      assert forall k :: 0 <= k < |es[1..]| ==> es[1..][k] == es[k + 1];
      VolumeOnly(Apply(w, es[0]), es[1..]);
    }
  }

  lemma SameTables(w: World, es: seq<Effect>, after: World, id: string)
    requires Ran(w, es, Done, after) && forall k :: 0 <= k < |es| ==> !es[k].Delete?
    ensures after.samples == w.samples && after.quality == w.quality
  {
    VolumeOnly(w, es);
  }

  lemma Finished(w: World, month: nat, current: nat, id: string, purge: bool)
    ensures RunEffects(w, month, current, id, purge, |Script(w, month, current, id, purge)|, false) == Script(w, month, current, id, purge)
  {
  }

  lemma DiedEnding(w: World, month: nat, current: nat, id: string, purge: bool, after: World)
    requires Ran(w, Script(w, month, current, id, purge), Died, after)
    ensures exists kept: nat :: after == ApplyAll(w, RunEffects(w, month, current, id, purge, kept, false))
  {
    hide Script;
    var script := Script(w, month, current, id, purge);
    var kept: nat :| kept < |script| && after == ApplyAll(w, Cut(script, kept));
    assert RunEffects(w, month, current, id, purge, kept, false) == Cut(script, kept);
  }

  lemma RaisedEnding(w: World, month: nat, current: nat, id: string, purge: bool, after: World)
    requires Ran(w, Script(w, month, current, id, purge), Raised, after)
    ensures exists kept: nat :: Apply(after, Mark(id, Failed, 0)) == ApplyAll(w, RunEffects(w, month, current, id, purge, kept, true))
  {
    hide Script, Apply;
    var script := Script(w, month, current, id, purge);
    var kept: nat :| kept < |script| && after == ApplyAll(w, Cut(script, kept));
    assert RunEffects(w, month, current, id, purge, kept, true) == Cut(script, kept) + [Mark(id, Failed, 0)];
    EffectsAppend(w, Cut(script, kept), [Mark(id, Failed, 0)]);
    ApplySingle(after, Mark(id, Failed, 0));
  }

  lemma MarkAbsent(w: World, id: string)
    requires id !in w.volume
    ensures Apply(w, Mark(id, Failed, 0)) == w
  {
  }
}

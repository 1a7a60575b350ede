/**
 The terminal's anti-rollback floor (tools/l4common/catalog_floor.c): a header and a hash
 chain of frames that is only ever appended to.  The hash is any function to 32 bytes; a
 write may stop after any byte.
 */
module CatalogFloor {
  import opened StoreBytes

  const HEADER: nat := 72
  const FRAME: nat := 80
  const BODY: nat := 48
  const LIMIT: nat := 8 * 1024 * 1024

  type Sha = s: seq<Byte> | |s| == 32 witness seq(32, _ => 0)
  type KeyId = s: seq<Byte> | |s| == 64 witness seq(64, _ => 0)
  type Hash = seq<Byte> -> Sha

  const NoDigest: Sha := seq(32, _ => 0)

  /** What one frame records: revision, time and catalog digest. */
  datatype Entry = Entry(revision: U64, time: U64, digest: Sha)

  /** What a reader knows after the frames read so far. */
  datatype FloorState = FloorState(revision: nat, time: nat, digest: Sha, chain: Sha)

  const Magic: seq<Byte> := [76, 52, 67, 65, 84, 48, 49, 0]

  function HeaderOf(key: KeyId): (h: seq<Byte>)
    ensures |h| == HEADER
  {
    Magic + key
  }

  function Body(e: Entry): (b: seq<Byte>)
    ensures |b| == BODY
  {
    Put64(e.revision) + Put64(e.time) + e.digest
  }

  function EntryAt(body: seq<Byte>): (e: Entry)
    requires |body| == BODY
    ensures Body(e) == body
  {
    assert body == body[..8] + body[8..16] + body[16..];
    Entry(Get64(body[..8]), Get64(body[8..16]), body[16..])
  }

  lemma EntryOfBody(e: Entry)
    ensures EntryAt(Body(e)) == e
  {
    var body := Body(e);
    assert body[..8] == Put64(e.revision) && body[8..16] == Put64(e.time) && body[16..] == e.digest;
  }

  function Link(H: Hash, chain: Sha, body: seq<Byte>): Sha {
    H(body + chain)
  }

  // ------------------------------------------------------------------ lawful sequences of entries

  predicate Follows(st: FloorState, e: Entry) {
    && e.revision > 0 && e.revision >= st.revision && e.time >= st.time
    && (e.revision == st.revision ==> e.digest == st.digest)
  }

  /** A newer revision, or the same one with the same digest, at no earlier time. */
  lemma FollowsExactlyWhen(st: FloorState, e: Entry)
    ensures Follows(st, e) <==>
              e.revision != 0 && st.time <= e.time && (st.revision < e.revision || (st.revision == e.revision && st.digest == e.digest))
  {
  }

  function After(H: Hash, st: FloorState, e: Entry): FloorState {
    FloorState(e.revision, e.time, e.digest, Link(H, st.chain, Body(e)))
  }

  function Initial(H: Hash, key: KeyId): FloorState {
    FloorState(0, 0, NoDigest, H(HeaderOf(key)))
  }

  predicate Lawful(H: Hash, st: FloorState, entries: seq<Entry>)
    decreases |entries|
  {
    entries == [] || (Follows(st, entries[0]) && Lawful(H, After(H, st, entries[0]), entries[1..]))
  }

  function StateAfter(H: Hash, st: FloorState, entries: seq<Entry>): FloorState
    decreases |entries|
  {
    if entries == [] then st else StateAfter(H, After(H, st, entries[0]), entries[1..])
  }

  // ------------------------------------------------------------------ files

  function FrameOf(H: Hash, chain: Sha, e: Entry): (f: seq<Byte>)
    ensures |f| == FRAME
  {
    Body(e) + Link(H, chain, Body(e))
  }

  function Frames(H: Hash, st: FloorState, entries: seq<Entry>): (f: seq<Byte>)
    ensures |f| == FRAME * |entries|
    decreases |entries|
  {
    if entries == [] then [] else FrameOf(H, st.chain, entries[0]) + Frames(H, After(H, st, entries[0]), entries[1..])
  }

  /** The whole file that records these entries. */
  function FileOf(H: Hash, key: KeyId, entries: seq<Entry>): (f: seq<Byte>)
    ensures |f| == HEADER + FRAME * |entries|
  {
    HeaderOf(key) + Frames(H, Initial(H, key), entries)
  }

  // ------------------------------------------------------------------ reading

  function ReadFrame(H: Hash, st: FloorState, frame: seq<Byte>): Option<FloorState>
    requires |frame| == FRAME
  {
    var body := frame[..BODY];
    if Link(H, st.chain, body) != frame[BODY..] || !Follows(st, EntryAt(body)) then None
    else Some(After(H, st, EntryAt(body)))
  }

  function ReadFrames(H: Hash, st: FloorState, bytes: seq<Byte>): Option<FloorState>
    decreases |bytes|
  {
    if bytes == [] then Some(st)
    else if |bytes| < FRAME then None
    else
      match ReadFrame(H, st, bytes[..FRAME])
      case None => None
      case Some(next) => ReadFrames(H, next, bytes[FRAME..])
  }

  function Read(H: Hash, key: KeyId, file: seq<Byte>): Option<FloorState> {
    if |file| < HEADER || |file| > LIMIT || file[..HEADER] != HeaderOf(key) then None
    else ReadFrames(H, Initial(H, key), file[HEADER..])
  }

  /** read_floor: the size is checked first, then frame after frame. */
  method ReadFloor(H: Hash, key: KeyId, file: seq<Byte>) returns (r: Option<FloorState>)
    ensures r == Read(H, key, file)
  {
    hide ReadFrame, Initial;
    if |file| < HEADER || |file| > LIMIT || file[..HEADER] != HeaderOf(key) {
      return None;
    }
    if (|file| - HEADER) % FRAME != 0 {
      UnevenRefused(H, Initial(H, key), file[HEADER..]);
      return None;
    }
    var st := Initial(H, key);
    var offset := HEADER;
    while offset < |file|
      invariant HEADER <= offset <= |file| && (|file| - offset) % FRAME == 0
      invariant ReadFrames(H, Initial(H, key), file[HEADER..]) == ReadFrames(H, st, file[offset..])
    {
      assert file[offset..][..FRAME] == file[offset..offset + FRAME];
      assert file[offset..][FRAME..] == file[offset + FRAME..];
      var next := ReadFrame(H, st, file[offset..offset + FRAME]);
      if next.None? {
        return None;
      }
      st := next.value;
      offset := offset + FRAME;
    }
    return Some(st);
  }

  lemma {:induction false} UnevenRefused(H: Hash, st: FloorState, bytes: seq<Byte>)
    requires |bytes| % FRAME != 0
    ensures ReadFrames(H, st, bytes) == None
    decreases |bytes|
  {
    hide ReadFrame;
    if |bytes| >= FRAME {
      match ReadFrame(H, st, bytes[..FRAME])
      case None =>
      case Some(next) => UnevenRefused(H, next, bytes[FRAME..]);
    }
  }

  // ------------------------------------------------------------------ reading and writing agree

  lemma FrameReads(H: Hash, st: FloorState, e: Entry)
    ensures ReadFrame(H, st, FrameOf(H, st.chain, e)) == if Follows(st, e) then Some(After(H, st, e)) else None
  {
    hide Follows, Body, EntryAt;
    var f := FrameOf(H, st.chain, e);
    assert f[..BODY] == Body(e) && f[BODY..] == Link(H, st.chain, Body(e));
    EntryOfBody(e);
  }

  /** Lawful frames are read back, whatever comes after them. */
  lemma {:induction false} FramesRead(H: Hash, st: FloorState, entries: seq<Entry>, tail: seq<Byte>)
    requires Lawful(H, st, entries)
    ensures ReadFrames(H, st, Frames(H, st, entries) + tail) == ReadFrames(H, StateAfter(H, st, entries), tail)
    decreases |entries|
  {
    hide ReadFrame, FrameOf, After, Follows;
    if entries == [] {
      assert Frames(H, st, entries) + tail == tail;
    } else {
      var first, next := FrameOf(H, st.chain, entries[0]), After(H, st, entries[0]);
      var rest := Frames(H, next, entries[1..]) + tail;
      assert Frames(H, st, entries) + tail == first + rest;
      assert (first + rest)[..FRAME] == first && (first + rest)[FRAME..] == rest;
      FrameReads(H, st, entries[0]);
      FramesRead(H, next, entries[1..], tail);
    }
  }

  /** A file with lawful entries reads as its last entry. */
  lemma FileReads(H: Hash, key: KeyId, entries: seq<Entry>)
    requires Lawful(H, Initial(H, key), entries) && HEADER + FRAME * |entries| <= LIMIT
    ensures Read(H, key, FileOf(H, key, entries)) == Some(StateAfter(H, Initial(H, key), entries))
  {
    hide HeaderOf, Initial, Lawful, StateAfter, Frames, ReadFrame;
    var frames := Frames(H, Initial(H, key), entries);
    FramesRead(H, Initial(H, key), entries, []);
    assert frames + [] == frames;
    assert FileOf(H, key, entries)[..HEADER] == HeaderOf(key);
    assert FileOf(H, key, entries)[HEADER..] == frames;
  }

  /** The entries of accepted frames. */
  function EntriesOf(bytes: seq<Byte>): seq<Entry>
    decreases |bytes|
  {
    if |bytes| < FRAME then [] else [EntryAt(bytes[..BODY])] + EntriesOf(bytes[FRAME..])
  }

  lemma {:induction false} FramesCanonical(H: Hash, st: FloorState, bytes: seq<Byte>)
    requires ReadFrames(H, st, bytes).Some?
    ensures Lawful(H, st, EntriesOf(bytes)) && Frames(H, st, EntriesOf(bytes)) == bytes
    ensures ReadFrames(H, st, bytes) == Some(StateAfter(H, st, EntriesOf(bytes)))
    decreases |bytes|
  {
    hide Follows, Body, EntryAt, Link;
    if bytes != [] {
      var frame := bytes[..FRAME];
      var e := EntryAt(bytes[..BODY]);
      assert frame[..BODY] == bytes[..BODY];
      var next := ReadFrame(H, st, frame).value;
      FramesCanonical(H, next, bytes[FRAME..]);
      assert EntriesOf(bytes)[1..] == EntriesOf(bytes[FRAME..]);
      assert frame == FrameOf(H, st.chain, e);
      assert bytes == frame + bytes[FRAME..];
    }
  }

  /**
   A file is accepted exactly when it is the header and the chained frames of a lawful
   sequence of entries; it then reads as the last of them.
   */
  lemma AcceptedFilesAreChains(H: Hash, key: KeyId, file: seq<Byte>)
    ensures
      Read(H, key, file).Some? <==>
        |file| <= LIMIT && exists entries :: Lawful(H, Initial(H, key), entries) && file == FileOf(H, key, entries)
    ensures
      Read(H, key, file).Some? ==>
        file == FileOf(H, key, EntriesOf(file[HEADER..])) &&
        Lawful(H, Initial(H, key), EntriesOf(file[HEADER..])) &&
        Read(H, key, file).value == StateAfter(H, Initial(H, key), EntriesOf(file[HEADER..]))
  {
    hide HeaderOf, Initial, Lawful, StateAfter, Frames, ReadFrames, EntriesOf;
    if Read(H, key, file).Some? {
      FramesCanonical(H, Initial(H, key), file[HEADER..]);
      assert file == file[..HEADER] + file[HEADER..];
    }
    if |file| <= LIMIT && exists entries :: Lawful(H, Initial(H, key), entries) && file == FileOf(H, key, entries) {
      var entries :| Lawful(H, Initial(H, key), entries) && file == FileOf(H, key, entries);
      FileReads(H, key, entries);
    }
  }

  /** An accepted file has 72 bytes and 80 for every entry, and at most eight megabytes. */
  lemma AcceptedSizes(H: Hash, key: KeyId, file: seq<Byte>)
    requires Read(H, key, file).Some?
    ensures |file| == 72 + 80 * |EntriesOf(file[72..])| && |file| <= 8388608
  {
    hide Read, EntriesOf, Lawful;
    AcceptedFilesAreChains(H, key, file);
  }

  /** Within a lawful sequence revision and time never decrease and a revision has one digest. */
  lemma {:induction false} LawfulNeverGoesBack(H: Hash, st: FloorState, entries: seq<Entry>, i: nat, j: nat)
    requires Lawful(H, st, entries) && i <= j < |entries|
    ensures st.revision <= entries[j].revision && st.time <= entries[j].time
    ensures st.revision == entries[j].revision ==> st.digest == entries[j].digest
    ensures entries[i].revision <= entries[j].revision && entries[i].time <= entries[j].time
    ensures entries[i].revision == entries[j].revision ==> entries[i].digest == entries[j].digest
    decreases |entries|
  {
    if j > 0 {
      var next := After(H, st, entries[0]);
      LawfulNeverGoesBack(H, next, entries[1..], if i > 0 then i - 1 else 0, j - 1);
    }
  }

  // ------------------------------------------------------------------ appending

  lemma {:induction false} OneMore(H: Hash, st: FloorState, entries: seq<Entry>, e: Entry)
    ensures Lawful(H, st, entries + [e]) <==> Lawful(H, st, entries) && Follows(StateAfter(H, st, entries), e)
    ensures StateAfter(H, st, entries + [e]) == After(H, StateAfter(H, st, entries), e)
    ensures Frames(H, st, entries + [e]) == Frames(H, st, entries) + FrameOf(H, StateAfter(H, st, entries).chain, e)
    decreases |entries|
  {
    hide After, Follows, FrameOf;
    var more := entries + [e];
    if entries == [] {
      assert more[1..] == [];
      assert Frames(H, After(H, st, e), []) == [];
      assert StateAfter(H, After(H, st, e), []) == After(H, st, e);
      assert Lawful(H, After(H, st, e), []);
    } else {
      assert more[1..] == entries[1..] + [e];
      OneMore(H, After(H, st, entries[0]), entries[1..], e);
    }
  }

  /** The fields of an entry, in order. */
  function Fields(e: Entry): seq<Byte> {
    Put64(e.revision) + Put64(e.time) + e.digest
  }

  /** A file without entries is "L4CAT01", a zero byte and the key id. */
  lemma HeaderLayout(H: Hash, key: KeyId)
    ensures FileOf(H, key, []) == [0x4C, 0x34, 0x43, 0x41, 0x54, 0x30, 0x31, 0x00] + key
  {
  }

  /**
   Every entry adds its fields and the hash of the fields followed by what links it: the
   hash of the header for the first one, the last 32 bytes of the file for all others.
   */
  lemma FrameLayout(H: Hash, key: KeyId, entries: seq<Entry>, e: Entry)
    ensures
      var file := FileOf(H, key, entries);
      && (entries == [] ==> FileOf(H, key, entries + [e]) == file + Fields(e) + H(Fields(e) + H(file)))
      && (entries != [] ==> FileOf(H, key, entries + [e]) == file + Fields(e) + H(Fields(e) + file[|file| - 32..]))
  {
    hide Lawful, StateAfter, Frames, HeaderOf;
    var st := Initial(H, key);
    var chain := StateAfter(H, st, entries).chain;
    var file := FileOf(H, key, entries);
    OneMore(H, st, entries, e);
    assert FileOf(H, key, entries + [e]) == file + FrameOf(H, chain, e);
    assert FrameOf(H, chain, e) == Fields(e) + H(Fields(e) + chain);
    assert file + FrameOf(H, chain, e) == file + Fields(e) + H(Fields(e) + chain);
    if entries == [] {
      NothingRead(H, st);
      assert file == HeaderOf(key) by { NoFrames(H, st); }
    } else {
      var front, last := entries[..|entries| - 1], entries[|entries| - 1];
      assert entries == front + [last];
      OneMore(H, st, front, last);
      var before := StateAfter(H, st, front).chain;
      assert file == FileOf(H, key, front) + FrameOf(H, before, last);
      assert file[|file| - 32..] == Link(H, before, Body(last));
    }
  }

  lemma NoFrames(H: Hash, st: FloorState)
    ensures Frames(H, st, []) == []
  {
  }

  lemma NothingRead(H: Hash, st: FloorState)
    ensures StateAfter(H, st, []) == st
  {
  }

  /** What a file stands for: the entries it records, or damage. */
  datatype Log = Entries(entries: seq<Entry>) | Damaged

  ghost function LogOf(H: Hash, key: KeyId, file: Option<seq<Byte>>): Log {
    if file.None? then Entries([])
    else if Read(H, key, file.value).None? then Damaged
    else Entries(EntriesOf(file.value[HEADER..]))
  }

  lemma {:induction false} EntriesOfFrames(H: Hash, st: FloorState, entries: seq<Entry>)
    ensures EntriesOf(Frames(H, st, entries)) == entries
    decreases |entries|
  {
    hide After, Link;
    if entries != [] {
      var first, rest := FrameOf(H, st.chain, entries[0]), Frames(H, After(H, st, entries[0]), entries[1..]);
      var all := first + rest;
      assert all[..BODY] == Body(entries[0]) && all[FRAME..] == rest;
      EntryOfBody(entries[0]);
      EntriesOfFrames(H, After(H, st, entries[0]), entries[1..]);
    }
  }

  lemma LogOfFile(H: Hash, key: KeyId, entries: seq<Entry>)
    requires Lawful(H, Initial(H, key), entries) && HEADER + FRAME * |entries| <= LIMIT
    ensures LogOf(H, key, Some(FileOf(H, key, entries))) == Entries(entries)
    ensures Read(H, key, FileOf(H, key, entries)) == Some(StateAfter(H, Initial(H, key), entries))
  {
    hide Initial, Lawful, EntriesOf, HeaderOf, StateAfter, Frames, Read;
    FileReads(H, key, entries);
    EntriesOfFrames(H, Initial(H, key), entries);
    assert FileOf(H, key, entries)[HEADER..] == Frames(H, Initial(H, key), entries);
  }

  lemma LogOfReadable(H: Hash, key: KeyId, file: seq<Byte>)
    requires Read(H, key, file).Some?
    ensures
      var log := LogOf(H, key, Some(file));
      && log.Entries? && file == FileOf(H, key, log.entries) && Lawful(H, Initial(H, key), log.entries) && |file| <= LIMIT
      && Read(H, key, file).value == StateAfter(H, Initial(H, key), log.entries)
  {
    hide Initial, Lawful, EntriesOf, HeaderOf, StateAfter, Frames, ReadFrames;
    AcceptedFilesAreChains(H, key, file);
  }

  /** A frame of which only part was written damages the file for good. */
  lemma TornFrame(H: Hash, key: KeyId, file: seq<Byte>, part: seq<Byte>)
    requires Read(H, key, file).Some? && 0 < |part| < FRAME
    ensures Read(H, key, file + part) == None
  {
    hide Initial, Lawful, EntriesOf, StateAfter, Frames, ReadFrames, HeaderOf;
    AcceptedFilesAreChains(H, key, file);
    assert (|file| - HEADER) % FRAME == 0;
    var grown := file + part;
    assert grown[HEADER..] == file[HEADER..] + part;
    UnevenRefused(H, Initial(H, key), grown[HEADER..]);
  }

  lemma FullFrame(H: Hash, key: KeyId, entries: seq<Entry>, e: Entry)
    requires Lawful(H, Initial(H, key), entries) && Follows(StateAfter(H, Initial(H, key), entries), e)
    requires HEADER + FRAME * |entries| + FRAME <= LIMIT
    ensures
      var chain := StateAfter(H, Initial(H, key), entries).chain;
      && FileOf(H, key, entries) + FrameOf(H, chain, e) == FileOf(H, key, entries + [e])
      && LogOf(H, key, Some(FileOf(H, key, entries + [e]))) == Entries(entries + [e])
  {
    hide Initial, Lawful, EntriesOf, HeaderOf, StateAfter, Frames, Read, Follows, FrameOf, LogOf;
    OneMore(H, Initial(H, key), entries, e);
    LogOfFile(H, key, entries + [e]);
  }

  // ------------------------------------------------------------------ accepting catalogs

  datatype Offer = Offer(revision: U64, digest: Sha, issued: U64, expires: U64)

  datatype Verdict = Accepted | Refused | WriteFailed

  function EntryFor(o: Offer, now: U64): Entry {
    Entry(o.revision, now, o.digest)
  }

  /** The floor state a log stands for. */
  ghost function Standing(H: Hash, key: KeyId, entries: seq<Entry>): FloorState {
    StateAfter(H, Initial(H, key), entries)
  }

  /** The entries after an accepted offer: a repeat at the same revision and time adds nothing. */
  ghost function Recorded(H: Hash, key: KeyId, entries: seq<Entry>, e: Entry): seq<Entry> {
    var st := Standing(H, key, entries);
    if st.revision == e.revision && st.time == e.time then entries else entries + [e]
  }

  /** How one call moves the log. */
  ghost predicate Moves(H: Hash, key: KeyId, before: Log, e: Entry, v: Verdict, after: Log) {
    if before.Damaged? then v != Accepted && after == before
    else
      match v
      case Accepted => Follows(Standing(H, key, before.entries), e) && after == Entries(Recorded(H, key, before.entries, e))
      case Refused => after == before
      case WriteFailed => after == before || after == Damaged
  }

  /** Whether an offer is admissible, writes aside. */
  ghost predicate Admissible(H: Hash, key: KeyId, log: Log, e: Entry) {
    && log.Entries? && Follows(Standing(H, key, log.entries), e)
    && HEADER + FRAME * |Recorded(H, key, log.entries, e)| <= LIMIT
  }

  class FloorFile {
    const H: Hash
    const key: KeyId
    var file: Option<seq<Byte>>
    var poisoned: bool

    constructor (H: Hash, key: KeyId, file: Option<seq<Byte>>)
      ensures this.H == H && this.key == key && this.file == file && !poisoned
    {
      this.H, this.key, this.file, this.poisoned := H, key, file, false;
    }

    ghost function Contents(): Log
      reads this
    {
      LogOf(H, key, file)
    }

    /** A write of which only the first `landed` bytes arrive; a short one poisons the journal. */
    method Append(bytes: seq<Byte>, landed: nat) returns (ok: bool)
      requires file.Some?
      modifies this
      ensures ok <==> landed >= |bytes|
      ensures file == Some(old(file.value) + if ok then bytes else bytes[..landed])
      ensures poisoned == (old(poisoned) || !ok)
    {
      ok := landed >= |bytes|;
      file := Some(file.value + if ok then bytes else bytes[..landed]);
      poisoned := poisoned || !ok;
    }

    /** A new file gets its header; a short header damages it. */
    method Create(landed: nat) returns (ok: bool)
      requires file.None?
      modifies this
      ensures file.Some? && (ok <==> landed >= HEADER) && poisoned == (old(poisoned) || !ok)
      ensures ok ==> file.value == FileOf(H, key, []) && Contents() == Entries([])
      ensures !ok ==> Contents() == Damaged
    {
      hide HeaderOf, Initial, ReadFrames, EntriesOf;
      var header := HeaderOf(key);
      file := Some([]);
      ok := Append(header, landed);
      assert [] + header == header;
      assert FileOf(H, key, []) == header;
      if ok {
        LogOfFile(H, key, []);
      }
    }

    /** l4_catalog_accept: `landed` is how many of the bytes it writes arrive. */
    method Accept(o: Offer, now: U64, landed: nat) returns (v: Verdict)
      requires o.revision > 0
      modifies this
      ensures Moves(H, key, old(Contents()), EntryFor(o, now), v, Contents())
      ensures old(file).Some? ==> file.Some? && old(file).value <= file.value
      ensures v == Accepted && old(file).Some? ==>
                var st := Standing(H, key, old(Contents()).entries);
                |file.value| == |old(file).value| + if st.revision == o.revision && st.time == now then 0 else 80
      ensures v == Accepted ==> !old(poisoned) && o.issued <= now < o.expires
      ensures !old(poisoned) && 0 < now && o.issued <= now < o.expires ==> landed >= HEADER + FRAME ==>
                (v == Accepted <==> Admissible(H, key, old(Contents()), EntryFor(o, now)))
    {
      hide LogOf, Read, FileOf, StateAfter, Initial, Lawful, EntriesOf, FrameOf;
      if poisoned || now == 0 || now < o.issued || now >= o.expires {
        return Refused;
      }
      var room := landed;
      ghost var before := Contents();
      assert file.None? ==> before == Entries([]) by { NoFile(H, key); }
      if file.None? {
        var created := Create(landed);
        if !created {
          return WriteFailed;
        }
        room := landed - HEADER;
      }
      assert Contents() == before;
      var st := ReadFloor(H, key, file.value);
      if st.None? {
        UnreadableIsDamaged(H, key, file.value);
        return Refused;
      }
      LogOfReadable(H, key, file.value);
      var e, floor := EntryFor(o, now), st.value;
      if o.revision < floor.revision || now < floor.time || (o.revision == floor.revision && o.digest != floor.digest) {
        return Refused;
      }
      if o.revision == floor.revision && now == floor.time {
        return Accepted;
      }
      if |file.value| + FRAME > LIMIT {
        return Refused;
      }
      ghost var bytes := file.value;
      FullFrame(H, key, before.entries, e);
      var done := Append(FrameOf(H, floor.chain, e), room);
      if done {
        return Accepted;
      }
      if room > 0 {
        TornFrame(H, key, bytes, FrameOf(H, floor.chain, e)[..room]);
        UnreadableIsDamaged(H, key, file.value);
      } else {
        assert file.value == bytes;
      }
      return WriteFailed;
    }
  }

  lemma NoFile(H: Hash, key: KeyId)
    ensures LogOf(H, key, None) == Entries([])
  {
  }

  lemma UnreadableIsDamaged(H: Hash, key: KeyId, file: seq<Byte>)
    requires Read(H, key, file).None?
    ensures LogOf(H, key, Some(file)) == Damaged
  {
  }

  // ------------------------------------------------------------------ histories

  datatype Attempted = Attempted(entry: Entry, verdict: Verdict, after: Log)

  /** Calls one after the other, each moving the log the one before it left. */
  ghost predicate Linked(H: Hash, key: KeyId, before: Log, calls: seq<Attempted>)
    decreases |calls|
  {
    calls == [] ||
    (Moves(H, key, before, calls[0].entry, calls[0].verdict, calls[0].after) && Linked(H, key, calls[0].after, calls[1..]))
  }

  ghost predicate LogLawful(H: Hash, key: KeyId, log: Log) {
    log.Entries? ==> Lawful(H, Initial(H, key), log.entries)
  }

  lemma MoveKeepsLawful(H: Hash, key: KeyId, before: Log, e: Entry, v: Verdict, after: Log)
    requires LogLawful(H, key, before) && Moves(H, key, before, e, v, after)
    ensures LogLawful(H, key, after)
    ensures v == Accepted ==>
              after.Entries? && Standing(H, key, after.entries).revision == e.revision &&
              Standing(H, key, after.entries).time == e.time && Standing(H, key, after.entries).digest == e.digest
    ensures before.Entries? && after.Entries? ==> before.entries <= after.entries
    ensures before.Damaged? ==> after.Damaged?
  {
    hide Initial, Lawful, StateAfter, Link;
    if before.Entries? {
      OneMore(H, Initial(H, key), before.entries, e);
    }
  }

  /**
   Over every history of accepts: an accepted call leaves exactly its own triple standing;
   a later accepted call has no smaller revision, no earlier time and, at the same revision,
   the same digest; and after damage nothing is accepted any more.
   */
  lemma {:induction false} HistoryNeverGoesBack(H: Hash, key: KeyId, before: Log, calls: seq<Attempted>, i: nat, j: nat)
    requires LogLawful(H, key, before) && Linked(H, key, before, calls) && i <= j < |calls|
    requires calls[j].verdict == Accepted
    ensures before.Entries? && calls[j].after.Entries? && LogLawful(H, key, calls[j].after)
    ensures Standing(H, key, calls[j].after.entries).revision == calls[j].entry.revision
    ensures Standing(H, key, calls[j].after.entries).time == calls[j].entry.time
    ensures Standing(H, key, calls[j].after.entries).digest == calls[j].entry.digest
    ensures before.entries <= calls[j].after.entries
    ensures calls[i].verdict == Accepted ==>
              && calls[i].entry.revision <= calls[j].entry.revision && calls[i].entry.time <= calls[j].entry.time
              && (calls[i].entry.revision == calls[j].entry.revision ==> calls[i].entry.digest == calls[j].entry.digest)
    decreases |calls|
  {
    hide Initial, Lawful, StateAfter, Link, Moves, Standing;
    var first := calls[0];
    MoveKeepsLawful(H, key, before, first.entry, first.verdict, first.after);
    if j > 0 {
      HistoryNeverGoesBack(H, key, first.after, calls[1..], if i > 0 then i - 1 else 0, j - 1);
      assert calls[1..][j - 1] == calls[j];
      if i == 0 && first.verdict == Accepted {
        StandingGrows(H, key, first.after.entries, calls[j].after.entries);
      }
    }
  }

  lemma {:induction false} StandingGrows(H: Hash, key: KeyId, a: seq<Entry>, b: seq<Entry>)
    requires Lawful(H, Initial(H, key), b) && a <= b
    ensures
      var s, t := Standing(H, key, a), Standing(H, key, b);
      s.revision <= t.revision && s.time <= t.time && (s.revision == t.revision ==> s.digest == t.digest)
    decreases |b|
  {
    hide Initial, Lawful, StateAfter, Link;
    if a == b {
      assert a == b;
    } else {
      var front, e := b[..|b| - 1], b[|b| - 1];
      assert b == front + [e];
      OneMore(H, Initial(H, key), front, e);
      StandingGrows(H, key, a, front);
    }
  }

  /** Damage is for good: no later call is accepted and the log stays damaged. */
  lemma {:induction false} DamageIsFinal(H: Hash, key: KeyId, calls: seq<Attempted>, k: nat)
    requires Linked(H, key, Damaged, calls) && k < |calls|
    ensures calls[k].verdict != Accepted && calls[k].after == Damaged
  {
    if k > 0 {
      DamageIsFinal(H, key, calls[1..], k - 1);
    }
  }
}

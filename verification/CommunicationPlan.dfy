/**
 The binary communication plan (tools/l4common/communication_plan.c): a fixed part of 320
 bytes, five variable parts laid out by a cursor, and a trailing hash.  The encoding is
 canonical in both directions.  What Windows decides about service switches and security
 descriptors is a parameter.
 */
module CommunicationPlan {
  import opened StoreBytes
  import opened CommunicationRecovery

  const FIXED: nat := 320
  const HASH: nat := 32
  const LIMIT: nat := 256 * 1024

  type Bytes8 = s: seq<Byte> | |s| == 8 witness seq(8, _ => 0)
  type Bytes16 = s: seq<Byte> | |s| == 16 witness seq(16, _ => 0)
  type Bytes32 = s: seq<Byte> | |s| == 32 witness seq(32, _ => 0)
  type Bytes64 = s: seq<Byte> | |s| == 64 witness seq(64, _ => 0)
  type Hash = seq<Byte> -> Bytes32

  datatype Times = Times(sequence: U64, generation: U64, armed: U64, deadline: U64)

  datatype Epochs = Epochs(worker: U32, supervisor: U32, workerCreated: Bytes8, supervisorCreated: Bytes8)

  datatype Refs = Refs(switch0: U64, switch1: U64, config0: U64, config1: U64)

  datatype Sizes = Sizes(switch0: U32, switch1: U32, config0: U32, config1: U32)

  datatype Console = Console(sequence: U64, size: U32, pid: U32, created: Bytes8)

  datatype Plan = Plan(
    operation: Bytes16, times: Times, epochs: Epochs, sha: Bytes32, budget: Budget, refs: Refs,
    switch0: seq<Byte>, config0: seq<Byte>, switch1: seq<Byte>, config1: seq<Byte>,
    conSequence: U64, conPid: U32, conCreated: Bytes8, conSwitch: seq<Byte>, thumbprint: Bytes64)

  /** What Windows decides: the three service switches together, and one security descriptor. */
  datatype Native = Native(switches: (seq<Byte>, seq<Byte>, seq<Byte>) -> bool, descriptor: seq<Byte> -> bool)

  // ------------------------------------------------------------------ groups of the fixed part

  const Magic: seq<Byte> := [76, 52, 67, 79, 77, 48, 50, 0]
  const Zeros4: seq<Byte> := [0, 0, 0, 0]
  const Zeros32: Bytes32 := Zeros4 + Zeros4 + Zeros4 + Zeros4 + Zeros4 + Zeros4 + Zeros4 + Zeros4

  function StartBytes(total: U32, operation: Bytes16): (b: seq<Byte>)
    ensures |b| == 32
  {
    Magic + Put32(total) + Zeros4 + operation
  }

  function TimesBytes(t: Times): (b: seq<Byte>)
    ensures |b| == 32
  {
    Put64(t.sequence) + Put64(t.generation) + Put64(t.armed) + Put64(t.deadline)
  }

  function TimesOf(b: seq<Byte>): (t: Times)
    requires |b| == 32
    ensures TimesBytes(t) == b
  {
    assert b == b[..8] + b[8..16] + b[16..24] + b[24..];
    Times(Get64(b[..8]), Get64(b[8..16]), Get64(b[16..24]), Get64(b[24..]))
  }

  function EpochsBytes(e: Epochs): (b: seq<Byte>)
    ensures |b| == 24
  {
    Put32(e.worker) + Put32(e.supervisor) + e.workerCreated + e.supervisorCreated
  }

  function EpochsOf(b: seq<Byte>): (e: Epochs)
    requires |b| == 24
    ensures EpochsBytes(e) == b
  {
    assert b == b[..4] + b[4..8] + b[8..16] + b[16..];
    Epochs(Get32(b[..4]), Get32(b[4..8]), b[8..16], b[16..])
  }

  function BudgetBytes(b: Budget): (r: seq<Byte>)
    ensures |r| == 32
  {
    (Put32(b.verify) + Put32(b.worker) + Put32(b.lock) + Put32(b.proxy)) +
    (Put32(b.brokerPrepare) + Put32(b.mosquitto) + Put32(b.channel) + Put32(b.total))
  }

  function BudgetOf(b: seq<Byte>): (r: Budget)
    requires |b| == 32
    ensures BudgetBytes(r) == b
  {
    assert b == (b[..4] + b[4..8] + b[8..12] + b[12..16]) + (b[16..20] + b[20..24] + b[24..28] + b[28..]);
    Budget(Get32(b[..4]), Get32(b[4..8]), Get32(b[8..12]), Get32(b[12..16]),
           Get32(b[16..20]), Get32(b[20..24]), Get32(b[24..28]), Get32(b[28..]))
  }

  function RefsBytes(r: Refs): (b: seq<Byte>)
    ensures |b| == 32
  {
    Put64(r.switch0) + Put64(r.switch1) + Put64(r.config0) + Put64(r.config1)
  }

  function RefsOf(b: seq<Byte>): (r: Refs)
    requires |b| == 32
    ensures RefsBytes(r) == b
  {
    assert b == b[..8] + b[8..16] + b[16..24] + b[24..];
    Refs(Get64(b[..8]), Get64(b[8..16]), Get64(b[16..24]), Get64(b[24..]))
  }

  function SizesBytes(z: Sizes): (b: seq<Byte>)
    ensures |b| == 16
  {
    Put32(z.switch0) + Put32(z.switch1) + Put32(z.config0) + Put32(z.config1)
  }

  function SizesOf(b: seq<Byte>): (z: Sizes)
    requires |b| == 16
    ensures SizesBytes(z) == b
  {
    assert b == b[..4] + b[4..8] + b[8..12] + b[12..];
    Sizes(Get32(b[..4]), Get32(b[4..8]), Get32(b[8..12]), Get32(b[12..]))
  }

  function ConsoleBytes(c: Console): (b: seq<Byte>)
    ensures |b| == 24
  {
    Put64(c.sequence) + Put32(c.size) + Put32(c.pid) + c.created
  }

  function ConsoleOf(b: seq<Byte>): (c: Console)
    requires |b| == 24
    ensures ConsoleBytes(c) == b
  {
    assert b == b[..8] + b[8..12] + b[12..16] + b[16..];
    Console(Get64(b[..8]), Get32(b[8..12]), Get32(b[12..16]), b[16..])
  }

  /** Each group reads back what was written. */
  lemma TimesBack(t: Times)
    ensures TimesOf(TimesBytes(t)) == t
  {
    var b := TimesBytes(t);
    assert b[..8] == Put64(t.sequence) && b[8..16] == Put64(t.generation) && b[16..24] == Put64(t.armed) && b[24..] == Put64(t.deadline);
  }

  lemma EpochsBack(e: Epochs)
    ensures EpochsOf(EpochsBytes(e)) == e
  {
    var b := EpochsBytes(e);
    assert b[..4] == Put32(e.worker) && b[4..8] == Put32(e.supervisor) && b[8..16] == e.workerCreated && b[16..] == e.supervisorCreated;
  }

  lemma BudgetBack(b: Budget)
    ensures BudgetOf(BudgetBytes(b)) == b
  {
    var r := BudgetBytes(b);
    assert r[..4] == Put32(b.verify) && r[4..8] == Put32(b.worker) && r[8..12] == Put32(b.lock) && r[12..16] == Put32(b.proxy);
    assert r[16..20] == Put32(b.brokerPrepare) && r[20..24] == Put32(b.mosquitto);
    assert r[24..28] == Put32(b.channel) && r[28..] == Put32(b.total);
  }

  lemma RefsBack(r: Refs)
    ensures RefsOf(RefsBytes(r)) == r
  {
    var b := RefsBytes(r);
    assert b[..8] == Put64(r.switch0) && b[8..16] == Put64(r.switch1) && b[16..24] == Put64(r.config0) && b[24..] == Put64(r.config1);
  }

  lemma SizesBack(z: Sizes)
    ensures SizesOf(SizesBytes(z)) == z
  {
    var b := SizesBytes(z);
    assert b[..4] == Put32(z.switch0) && b[4..8] == Put32(z.switch1) && b[8..12] == Put32(z.config0) && b[12..] == Put32(z.config1);
  }

  lemma ConsoleBack(c: Console)
    ensures ConsoleOf(ConsoleBytes(c)) == c
  {
    var b := ConsoleBytes(c);
    assert b[..8] == Put64(c.sequence) && b[8..12] == Put32(c.size) && b[12..16] == Put32(c.pid) && b[16..] == c.created;
  }

  // ------------------------------------------------------------------ validity

  predicate Nonzero(b: seq<Byte>) {
    exists i :: 0 <= i < |b| && b[i] != 0
  }

  predicate HexDigit(c: Byte) {
    48 <= c <= 57 || 65 <= c <= 70 || 97 <= c <= 102
  }

  predicate ThumbprintOk(t: Bytes64) {
    (forall i :: 0 <= i < 40 ==> HexDigit(t[i])) && (forall i :: 40 <= i < 64 ==> t[i] == 0)
  }

  function RefList(p: Plan): seq<U64> {
    [p.refs.switch0, p.refs.switch1, p.refs.config0, p.refs.config1, p.conSequence]
  }

  predicate RefsOk(refs: seq<U64>, sequence: U64) {
    && (forall i :: 0 <= i < |refs| ==> 0 < refs[i] < sequence)
    && (forall i, k :: 0 <= k < i < |refs| ==> refs[k] != refs[i])
  }

  function Ascii(s: string): (b: seq<Byte>)
    ensures |b| == |s|
  {
    seq(|s|, i requires 0 <= i < |s| => s[i] as int % 256)
  }

  /** A broker file record: fixed path, two bounded contents and a security descriptor. */
  predicate ConfigOk(native: Native, b: seq<Byte>, path: seq<Byte>) {
    && |b| >= 24 && Get32(b[..4]) == 1 && Get32(b[4..8]) == 1
    && var n, previous, next, sd := Get32(b[8..12]), Get32(b[12..16]), Get32(b[16..20]), Get32(b[20..24]);
    && n == |path| && previous <= 65536 && next <= 65536 && 20 <= sd <= 4096
    && 24 + n + previous + next + sd == |b|
    && b[24..24 + n] == path && native.descriptor(b[24 + n + previous + next..])
  }

  /** The bytes of a broker file record. */
  function ConfigBytes(path: seq<Byte>, previous: seq<Byte>, next: seq<Byte>, descriptor: seq<Byte>): seq<Byte>
    requires |path| < U32_LIMIT && |previous| <= 65536 && |next| <= 65536 && |descriptor| <= 4096
  {
    ConfigHead(|path|, |previous|, |next|, |descriptor|) + (path + previous + next + descriptor)
  }

  function ConfigHead(n: U32, previous: U32, next: U32, descriptor: U32): (b: seq<Byte>)
    ensures |b| == 24
  {
    Put32(1) + Put32(1) + Put32(n) + Put32(previous) + Put32(next) + Put32(descriptor)
  }

  lemma ConfigHeadParts(n: U32, previous: U32, next: U32, descriptor: U32)
    ensures
      var b := ConfigHead(n, previous, next, descriptor);
      && b[..4] == Put32(1) && b[4..8] == Put32(1) && b[8..12] == Put32(n) && b[12..16] == Put32(previous) && b[16..20] == Put32(next)
      && b[20..24] == Put32(descriptor)
  {
    hide Put32;
  }

  lemma ConfigHeadIs(b: seq<Byte>)
    requires |b| >= 24 && Get32(b[..4]) == 1 && Get32(b[4..8]) == 1
    ensures b[..24] == ConfigHead(Get32(b[8..12]), Get32(b[12..16]), Get32(b[16..20]), Get32(b[20..24]))
  {
    hide Put32, Get32;
    assert Put32(1) == b[..4] && Put32(1) == b[4..8];
    assert b[..24] == b[..4] + b[4..8] + b[8..12] + b[12..16] + b[16..20] + b[20..24];
  }

  /** The pieces of a record that passes the check. */
  predicate ConfigIs(native: Native, b: seq<Byte>, path: seq<Byte>, previous: seq<Byte>, next: seq<Byte>, descriptor: seq<Byte>) {
    && |path| < U32_LIMIT && |previous| <= 65536 && |next| <= 65536 && 20 <= |descriptor| <= 4096
    && b == ConfigBytes(path, previous, next, descriptor) && native.descriptor(descriptor)
  }

  lemma ConfigPieces(native: Native, b: seq<Byte>, path: seq<Byte>)
    requires ConfigOk(native, b, path)
    ensures
      var n, previous, next := |path|, Get32(b[12..16]), Get32(b[16..20]);
      && 24 + n + previous + next <= |b|
      && ConfigIs(native, b, path, b[24 + n..24 + n + previous], b[24 + n + previous..24 + n + previous + next], b[24 + n + previous + next..])
  {
    hide Put32, Get32, ConfigHead;
    var n, previous, next := |path|, Get32(b[12..16]), Get32(b[16..20]);
    ConfigHeadIs(b);
    var i := 24 + n;
    var j := i + previous;
    var k := j + next;
    assert b == b[..24] + (b[24..i] + b[i..j] + b[j..k] + b[k..]);
  }

  /** A broker file record passes exactly when it is two ones, four lengths, the fixed path, two bounded contents and a descriptor. */
  lemma ConfigExactlyWhen(native: Native, b: seq<Byte>, path: seq<Byte>)
    ensures ConfigOk(native, b, path) <==>
              exists previous, next, descriptor :: ConfigIs(native, b, path, previous, next, descriptor)
  {
    hide ConfigOk, ConfigIs;
    if ConfigOk(native, b, path) {
      ConfigPieces(native, b, path);
    }
    forall previous, next, descriptor | ConfigIs(native, b, path, previous, next, descriptor) ensures ConfigOk(native, b, path) {
      ConfigPasses(native, b, path, previous, next, descriptor);
    }
  }

  lemma ConfigPasses(native: Native, b: seq<Byte>, path: seq<Byte>, previous: seq<Byte>, next: seq<Byte>, descriptor: seq<Byte>)
    requires ConfigIs(native, b, path, previous, next, descriptor)
    ensures ConfigOk(native, b, path)
  {
    hide Put32, Get32, ConfigHead;
    var head := ConfigHead(|path|, |previous|, |next|, |descriptor|);
    ConfigHeadParts(|path|, |previous|, |next|, |descriptor|);
    HeadSlices(head, b);
    Get32Put32(1);
    Get32Put32(|path|);
    Get32Put32(|previous|);
    Get32Put32(|next|);
    Get32Put32(|descriptor|);
    var i := 24 + |path|;
    var k := i + |previous| + |next|;
    assert b[24..i] == path;
    assert b[k..] == descriptor;
  }

  lemma HeadSlices(head: seq<Byte>, b: seq<Byte>)
    requires |head| == 24 && head <= b
    ensures b[..4] == head[..4] && b[4..8] == head[4..8] && b[8..12] == head[8..12] && b[12..16] == head[12..16]
    ensures b[16..20] == head[16..20] && b[20..24] == head[20..24]
  {
  }

  lemma Get32Put32(v: U32)
    ensures Get32(Put32(v)) == v
  {
    assert Get(Put32(v)) == v;
  }

  const MainConfig := "mosquitto\\mosquitto.conf"
  const AclConfig := "mosquitto\\acl.conf"

  predicate IdentityOk(p: Plan) {
    && Nonzero(p.operation) && p.times.sequence > 0 && p.times.generation > 0 && p.times.armed > 0
    && p.times.deadline > p.times.armed
    && p.epochs.worker != 0 && p.epochs.supervisor != 0 && p.epochs.worker != p.epochs.supervisor
    && Nonzero(p.epochs.workerCreated) && Nonzero(p.epochs.supervisorCreated) && Nonzero(p.sha)
  }

  predicate SwitchSize(b: seq<Byte>) {
    0 < |b| <= 16384
  }

  predicate ValidPlan(native: Native, p: Plan) {
    && IdentityOk(p) && BudgetValid(p.budget) && RefsOk(RefList(p), p.times.sequence)
    && SwitchSize(p.switch0) && SwitchSize(p.switch1)
    && p.conPid != 0 && Nonzero(p.conCreated) && SwitchSize(p.conSwitch) && ThumbprintOk(p.thumbprint)
    && native.switches(p.switch0, p.switch1, p.conSwitch)
    && ConfigOk(native, p.config0, Ascii(MainConfig)) && ConfigOk(native, p.config1, Ascii(AclConfig))
  }

  // ------------------------------------------------------------------ the encoding

  function Total(p: Plan): nat {
    FIXED + |p.switch0| + |p.config0| + |p.switch1| + |p.config1| + |p.conSwitch| + HASH
  }

  predicate Fits(p: Plan) {
    Total(p) < U32_LIMIT
  }

  function SizesIn(p: Plan): Sizes
    requires Fits(p)
  {
    Sizes(|p.switch0|, |p.switch1|, |p.config0|, |p.config1|)
  }

  function ConsoleIn(p: Plan): Console
    requires Fits(p)
  {
    Console(p.conSequence, |p.conSwitch|, p.conPid, p.conCreated)
  }

  function FixedBytes(p: Plan): (b: seq<Byte>)
    requires Fits(p)
    ensures |b| == FIXED
  {
    FrontBytes(p) + BackBytes(p)
  }

  function VariableBytes(p: Plan): seq<Byte> {
    p.switch0 + p.config0 + p.switch1 + p.config1 + p.conSwitch
  }

  function EncodeBytes(H: Hash, p: Plan): (b: seq<Byte>)
    requires Fits(p)
    ensures |b| == Total(p)
  {
    var body := FixedBytes(p) + VariableBytes(p);
    body + H(body)
  }

  // ------------------------------------------------------------------ the decoding

  /** Everything before the plan itself is looked at. */
  predicate Framed(H: Hash, b: seq<Byte>) {
    && FIXED + HASH <= |b| <= LIMIT
    && b[..8] == Magic && Get32(b[8..12]) == |b| && b[12..16] == Zeros4 && b[288..320] == Zeros32
    && H(b[..|b| - HASH]) == b[|b| - HASH..]
  }

  function SizesAt(b: seq<Byte>): Sizes
    requires |b| >= FIXED
  {
    SizesOf(b[184..200])
  }

  function ConsoleAt(b: seq<Byte>): Console
    requires |b| >= FIXED
  {
    ConsoleOf(b[200..224])
  }

  /** The variable parts fill exactly the space between the fixed part and the hash. */
  predicate Laid(b: seq<Byte>)
    requires |b| >= FIXED
  {
    var z, c := SizesAt(b), ConsoleAt(b);
    FIXED + z.switch0 + z.config0 + z.switch1 + z.config1 + c.size + HASH == |b|
  }

  function PlanAt(b: seq<Byte>): (p: Plan)
    requires |b| >= FIXED && Laid(b)
  {
    var z, c := SizesAt(b), ConsoleAt(b);
    var a0 := FIXED + z.switch0;
    var a1 := a0 + z.config0;
    var a2 := a1 + z.switch1;
    var a3 := a2 + z.config1;
    Plan(b[16..32], TimesOf(b[32..64]), EpochsOf(b[64..88]), b[88..120], BudgetOf(b[120..152]), RefsOf(b[152..184]),
         b[FIXED..a0], b[a0..a1], b[a1..a2], b[a2..a3],
         c.sequence, c.pid, c.created, b[a3..a3 + c.size], b[224..288])
  }

  function DecodeBytes(H: Hash, native: Native, b: seq<Byte>): Option<Plan> {
    if Framed(H, b) && Laid(b) && ValidPlan(native, PlanAt(b)) then Some(PlanAt(b)) else None
  }

  // ------------------------------------------------------------------ both directions

  function FrontBytes(p: Plan): (b: seq<Byte>)
    requires Fits(p)
    ensures |b| == 152
  {
    StartBytes(Total(p), p.operation) + TimesBytes(p.times) + EpochsBytes(p.epochs) + p.sha + BudgetBytes(p.budget)
  }

  function BackBytes(p: Plan): (b: seq<Byte>)
    requires Fits(p)
    ensures |b| == 168
  {
    RefsBytes(p.refs) + SizesBytes(SizesIn(p)) + ConsoleBytes(ConsoleIn(p)) + p.thumbprint + Zeros32
  }

  lemma FrontParts(p: Plan)
    requires Fits(p)
    ensures
      var f := FrontBytes(p);
      && f[..32] == StartBytes(Total(p), p.operation) && f[32..64] == TimesBytes(p.times) && f[64..88] == EpochsBytes(p.epochs)
      && f[88..120] == p.sha && f[120..152] == BudgetBytes(p.budget)
  {
    hide StartBytes, TimesBytes, EpochsBytes, BudgetBytes, Total;
  }

  lemma BackParts(p: Plan)
    requires Fits(p)
    ensures
      var b := BackBytes(p);
      && b[..32] == RefsBytes(p.refs) && b[32..48] == SizesBytes(SizesIn(p)) && b[48..72] == ConsoleBytes(ConsoleIn(p))
      && b[72..136] == p.thumbprint && b[136..168] == Zeros32
  {
    hide RefsBytes, SizesBytes, ConsoleBytes, Total, SizesIn, ConsoleIn;
  }

  /** The groups of the fixed part, at the offsets the reader uses. */
  lemma FixedParts(p: Plan)
    requires Fits(p)
    ensures
      var f := FixedBytes(p);
      && f[..32] == StartBytes(Total(p), p.operation) && f[32..64] == TimesBytes(p.times) && f[64..88] == EpochsBytes(p.epochs)
      && f[88..120] == p.sha && f[120..152] == BudgetBytes(p.budget) && f[152..184] == RefsBytes(p.refs)
      && f[184..200] == SizesBytes(SizesIn(p)) && f[200..224] == ConsoleBytes(ConsoleIn(p))
      && f[224..288] == p.thumbprint && f[288..320] == Zeros32
  {
    hide StartBytes, TimesBytes, EpochsBytes, BudgetBytes, RefsBytes, SizesBytes, ConsoleBytes, FrontBytes, BackBytes, Total, SizesIn,
      ConsoleIn;
    FrontParts(p);
    BackParts(p);
    var f, front, back := FixedBytes(p), FrontBytes(p), BackBytes(p);
    SliceOfPrefix(front, f, 0, 32);
    SliceOfPrefix(front, f, 32, 64);
    SliceOfPrefix(front, f, 64, 88);
    SliceOfPrefix(front, f, 88, 120);
    SliceOfPrefix(front, f, 120, 152);
    Middle(front, back, [], 0, 32);
    Middle(front, back, [], 32, 48);
    Middle(front, back, [], 48, 72);
    Middle(front, back, [], 72, 136);
    Middle(front, back, [], 136, 168);
    assert front + back + [] == f;
  }

  lemma SubSlice(b: seq<Byte>, i: nat, j: nat, x: nat, y: nat)
    requires i <= j <= |b| && x <= y <= j - i
    ensures b[i..j][x..y] == b[i + x..i + y]
  {
    var l, r := b[i..j][x..y], b[i + x..i + y];
    forall k | 0 <= k < |l| ensures l[k] == r[k] {
      assert l[k] == b[i..j][x + k] == b[i + (x + k)];
    }
    assert l == r;
  }

  lemma StartPieces(p: Plan)
    requires Fits(p)
    ensures
      var s := StartBytes(Total(p), p.operation);
      && s[0..8] == Magic && s[8..12] == Put32(Total(p)) && s[12..16] == Zeros4 && s[16..32] == p.operation
  {
    hide Put32, Total;
  }

  lemma TimesPieces(t: Times)
    ensures
      var g := TimesBytes(t);
      && g[0..8] == Put64(t.sequence) && g[8..16] == Put64(t.generation) && g[16..24] == Put64(t.armed) && g[24..32] == Put64(t.deadline)
  {
    hide Put64;
  }

  /** Where the plan's identity and times are. */
  lemma TimesLayout(H: Hash, p: Plan)
    requires Fits(p)
    ensures
      var b := EncodeBytes(H, p);
      && |b| >= FIXED && b[..8] == [0x4C, 0x34, 0x43, 0x4F, 0x4D, 0x30, 0x32, 0x00] && b[8..12] == Put32(|b|) && b[12..16] == [0, 0, 0, 0]
      && b[16..32] == p.operation && b[32..40] == Put64(p.times.sequence) && b[40..48] == Put64(p.times.generation)
      && b[48..56] == Put64(p.times.armed) && b[56..64] == Put64(p.times.deadline)
  {
    hide FixedBytes, VariableBytes, Put64, Put32, StartBytes, TimesBytes;
    var f, b := FixedBytes(p), EncodeBytes(H, p);
    FixedParts(p);
    assert f <= b;
    SliceOfPrefix(f, b, 0, 32);
    SliceOfPrefix(f, b, 32, 64);
    SubSlice(b, 0, 32, 0, 8);
    SubSlice(b, 0, 32, 8, 12);
    SubSlice(b, 0, 32, 12, 16);
    SubSlice(b, 0, 32, 16, 32);
    SubSlice(b, 32, 64, 0, 8);
    SubSlice(b, 32, 64, 8, 16);
    SubSlice(b, 32, 64, 16, 24);
    SubSlice(b, 32, 64, 24, 32);
    StartPieces(p);
    TimesPieces(p.times);
  }

  /** Where the two process epochs and the operation digest are. */
  lemma EpochsLayout(H: Hash, p: Plan)
    requires Fits(p)
    ensures
      var b := EncodeBytes(H, p);
      && |b| >= FIXED && b[64..68] == Put32(p.epochs.worker) && b[68..72] == Put32(p.epochs.supervisor)
      && b[72..80] == p.epochs.workerCreated && b[80..88] == p.epochs.supervisorCreated && b[88..120] == p.sha
  {
    hide FixedBytes, VariableBytes, Put32;
    var f, b, g := FixedBytes(p), EncodeBytes(H, p), EpochsBytes(p.epochs);
    FixedParts(p);
    assert f <= b;
    SliceOfPrefix(f, b, 64, 88);
    SliceOfPrefix(f, b, 88, 120);
    SubSlice(b, 64, 88, 0, 4);
    SubSlice(b, 64, 88, 4, 8);
    SubSlice(b, 64, 88, 8, 16);
    SubSlice(b, 64, 88, 16, 24);
    assert g[0..4] == Put32(p.epochs.worker) && g[4..8] == Put32(p.epochs.supervisor);
    assert g[8..16] == p.epochs.workerCreated && g[16..24] == p.epochs.supervisorCreated;
  }

  /** Where the eight budget fields are. */
  lemma BudgetLayout(H: Hash, p: Plan)
    requires Fits(p)
    ensures
      var b := EncodeBytes(H, p);
      && |b| >= FIXED && b[120..124] == Put32(p.budget.verify) && b[124..128] == Put32(p.budget.worker)
      && b[128..132] == Put32(p.budget.lock) && b[132..136] == Put32(p.budget.proxy) && b[136..140] == Put32(p.budget.brokerPrepare)
      && b[140..144] == Put32(p.budget.mosquitto) && b[144..148] == Put32(p.budget.channel) && b[148..152] == Put32(p.budget.total)
  {
    hide FixedBytes, VariableBytes, Put32;
    var f, b, g := FixedBytes(p), EncodeBytes(H, p), BudgetBytes(p.budget);
    FixedParts(p);
    assert f <= b;
    SliceOfPrefix(f, b, 120, 152);
    SubSlice(b, 120, 152, 0, 4);
    SubSlice(b, 120, 152, 4, 8);
    SubSlice(b, 120, 152, 8, 12);
    SubSlice(b, 120, 152, 12, 16);
    SubSlice(b, 120, 152, 16, 20);
    SubSlice(b, 120, 152, 20, 24);
    SubSlice(b, 120, 152, 24, 28);
    SubSlice(b, 120, 152, 28, 32);
    assert g[0..4] == Put32(p.budget.verify) && g[4..8] == Put32(p.budget.worker) && g[8..12] == Put32(p.budget.lock);
    assert g[12..16] == Put32(p.budget.proxy) && g[16..20] == Put32(p.budget.brokerPrepare) && g[20..24] == Put32(p.budget.mosquitto);
    assert g[24..28] == Put32(p.budget.channel) && g[28..32] == Put32(p.budget.total);
  }

  /** Where the journal references and the sizes of the variable parts are. */
  lemma RefsLayout(H: Hash, p: Plan)
    requires Fits(p)
    ensures
      var b := EncodeBytes(H, p);
      && |b| >= FIXED && b[152..160] == Put64(p.refs.switch0) && b[160..168] == Put64(p.refs.switch1)
      && b[168..176] == Put64(p.refs.config0) && b[176..184] == Put64(p.refs.config1)
      && b[184..188] == Put32(|p.switch0|) && b[188..192] == Put32(|p.switch1|)
      && b[192..196] == Put32(|p.config0|) && b[196..200] == Put32(|p.config1|)
  {
    hide FixedBytes, VariableBytes, Put32, Put64;
    var f, b, g, z := FixedBytes(p), EncodeBytes(H, p), RefsBytes(p.refs), SizesBytes(SizesIn(p));
    FixedParts(p);
    assert f <= b;
    SliceOfPrefix(f, b, 152, 184);
    SliceOfPrefix(f, b, 184, 200);
    SubSlice(b, 152, 184, 0, 8);
    SubSlice(b, 152, 184, 8, 16);
    SubSlice(b, 152, 184, 16, 24);
    SubSlice(b, 152, 184, 24, 32);
    SubSlice(b, 184, 200, 0, 4);
    SubSlice(b, 184, 200, 4, 8);
    SubSlice(b, 184, 200, 8, 12);
    SubSlice(b, 184, 200, 12, 16);
    assert g[0..8] == Put64(p.refs.switch0) && g[8..16] == Put64(p.refs.switch1);
    assert g[16..24] == Put64(p.refs.config0) && g[24..32] == Put64(p.refs.config1);
    assert z[0..4] == Put32(|p.switch0|) && z[4..8] == Put32(|p.switch1|) && z[8..12] == Put32(|p.config0|) && z[12..16] == Put32(|p.config1|);
  }

  /** Where the console, its certificate, the variable parts and the hash are. */
  lemma ConsoleLayout(H: Hash, p: Plan)
    requires Fits(p)
    ensures
      var b := EncodeBytes(H, p);
      && |b| == 352 + |p.switch0| + |p.config0| + |p.switch1| + |p.config1| + |p.conSwitch|
      && b[200..208] == Put64(p.conSequence) && b[208..212] == Put32(|p.conSwitch|) && b[212..216] == Put32(p.conPid)
      && b[216..224] == p.conCreated && b[224..288] == p.thumbprint
      && b[320..|b| - 32] == p.switch0 + p.config0 + p.switch1 + p.config1 + p.conSwitch
      && b[|b| - 32..] == H(b[..|b| - 32])
  {
    hide FixedBytes, Put32, Put64;
    var f, b, g := FixedBytes(p), EncodeBytes(H, p), ConsoleBytes(ConsoleIn(p));
    FixedParts(p);
    EncodedHash(H, p);
    assert f <= b;
    SliceOfPrefix(f, b, 200, 224);
    SliceOfPrefix(f, b, 224, 288);
    SubSlice(b, 200, 224, 0, 8);
    SubSlice(b, 200, 224, 8, 12);
    SubSlice(b, 200, 224, 12, 16);
    SubSlice(b, 200, 224, 16, 24);
    assert g[0..8] == Put64(p.conSequence) && g[8..12] == Put32(|p.conSwitch|) && g[12..16] == Put32(p.conPid) && g[16..24] == p.conCreated;
    Middle(f, VariableBytes(p), H(f + VariableBytes(p)), 0, |VariableBytes(p)|);
  }

  lemma StartParts(total: U32, operation: Bytes16)
    ensures
      var s := StartBytes(total, operation);
      s[..8] == Magic && s[8..12] == Put32(total) && s[12..16] == Zeros4 && s[16..32] == operation
  {
  }

  /** The same slices in anything that starts with the fixed part. */
  lemma SliceOfPrefix(f: seq<Byte>, b: seq<Byte>, i: nat, j: nat)
    requires f <= b && i <= j <= |f|
    ensures b[i..j] == f[i..j]
  {
  }

  lemma EncodedStart(H: Hash, p: Plan)
    requires Fits(p)
    ensures
      var b := EncodeBytes(H, p);
      && |b| >= FIXED && b[..8] == Magic && Get32(b[8..12]) == Total(p) && b[12..16] == Zeros4 && b[16..32] == p.operation
      && b[288..320] == Zeros32
  {
    hide StartBytes, Total, VariableBytes, FixedBytes;
    var f, b := FixedBytes(p), EncodeBytes(H, p);
    FixedParts(p);
    StartParts(Total(p), p.operation);
    assert f <= b;
    SliceOfPrefix(f, b, 0, 32);
    SliceOfPrefix(f, b, 288, 320);
    var s := StartBytes(Total(p), p.operation);
    assert b[..8] == b[0..32][..8] && b[8..12] == b[0..32][8..12] && b[12..16] == b[0..32][12..16] && b[16..32] == b[0..32][16..32];
  }

  lemma EncodedGroups(H: Hash, p: Plan)
    requires Fits(p)
    ensures
      var b := EncodeBytes(H, p);
      && |b| >= FIXED
      && TimesOf(b[32..64]) == p.times && EpochsOf(b[64..88]) == p.epochs && b[88..120] == p.sha
      && BudgetOf(b[120..152]) == p.budget && RefsOf(b[152..184]) == p.refs
      && SizesAt(b) == SizesIn(p) && ConsoleAt(b) == ConsoleIn(p) && b[224..288] == p.thumbprint
  {
    hide StartBytes, TimesBytes, EpochsBytes, BudgetBytes, RefsBytes, SizesBytes, ConsoleBytes, VariableBytes, FixedBytes,
      TimesOf, EpochsOf, BudgetOf, RefsOf, SizesOf, ConsoleOf, Total;
    var f, b := FixedBytes(p), EncodeBytes(H, p);
    FixedParts(p);
    assert f <= b;
    SliceOfPrefix(f, b, 32, 64);
    SliceOfPrefix(f, b, 64, 88);
    SliceOfPrefix(f, b, 88, 120);
    SliceOfPrefix(f, b, 120, 152);
    SliceOfPrefix(f, b, 152, 184);
    SliceOfPrefix(f, b, 184, 200);
    SliceOfPrefix(f, b, 200, 224);
    SliceOfPrefix(f, b, 224, 288);
    TimesBack(p.times);
    EpochsBack(p.epochs);
    BudgetBack(p.budget);
    RefsBack(p.refs);
    SizesBack(SizesIn(p));
    ConsoleBack(ConsoleIn(p));
  }

  lemma EncodedVariable(H: Hash, p: Plan)
    requires Fits(p)
    ensures
      var b := EncodeBytes(H, p);
      var a0 := FIXED + |p.switch0|;
      var a1 := a0 + |p.config0|;
      var a2 := a1 + |p.switch1|;
      var a3 := a2 + |p.config1|;
      && a3 + |p.conSwitch| + HASH == |b|
      && b[FIXED..a0] == p.switch0 && b[a0..a1] == p.config0 && b[a1..a2] == p.switch1 && b[a2..a3] == p.config1
      && b[a3..a3 + |p.conSwitch|] == p.conSwitch
  {
    hide FixedBytes, VariableBytes;
    var f, v := FixedBytes(p), VariableBytes(p);
    var h := H(f + v);
    var c0 := |p.switch0|;
    var c1 := c0 + |p.config0|;
    var c2 := c1 + |p.switch1|;
    var c3 := c2 + |p.config1|;
    VariableParts(p);
    Middle(f, v, h, 0, c0);
    Middle(f, v, h, c0, c1);
    Middle(f, v, h, c1, c2);
    Middle(f, v, h, c2, c3);
    Middle(f, v, h, c3, |v|);
  }

  lemma Middle(f: seq<Byte>, v: seq<Byte>, h: seq<Byte>, i: nat, j: nat)
    requires i <= j <= |v|
    ensures (f + v + h)[|f| + i..|f| + j] == v[i..j]
  {
  }

  lemma VariableParts(p: Plan)
    ensures
      var v, c0 := VariableBytes(p), |p.switch0|;
      var c1 := c0 + |p.config0|;
      var c2 := c1 + |p.switch1|;
      var c3 := c2 + |p.config1|;
      && |v| == c3 + |p.conSwitch|
      && v[0..c0] == p.switch0 && v[c0..c1] == p.config0 && v[c1..c2] == p.switch1 && v[c2..c3] == p.config1 && v[c3..|v|] == p.conSwitch
  {
  }

  /** The plan read from an encoding is the plan that was encoded. */
  lemma PlanAtEncoded(H: Hash, p: Plan)
    requires Fits(p)
    ensures
      var b := EncodeBytes(H, p);
      |b| >= FIXED && Laid(b) && PlanAt(b) == p
  {
    hide EncodeBytes, TimesOf, EpochsOf, BudgetOf, RefsOf, SizesAt, ConsoleAt, Total;
    EncodedStart(H, p);
    EncodedGroups(H, p);
    EncodedVariable(H, p);
  }

  /** Decoding an encoding gives the plan back, for every valid plan that is not too large. */
  lemma DecodeEncode(H: Hash, native: Native, p: Plan)
    requires ValidPlan(native, p) && Total(p) <= 262144
    ensures DecodeBytes(H, native, EncodeBytes(H, p)) == Some(p)
  {
    hide EncodeBytes, PlanAt, Laid, ValidPlan;
    PlanAtEncoded(H, p);
    EncodedStart(H, p);
    EncodedHash(H, p);
  }

  lemma EncodedHash(H: Hash, p: Plan)
    requires Fits(p)
    ensures
      var b := EncodeBytes(H, p);
      |b| >= HASH && H(b[..|b| - HASH]) == b[|b| - HASH..]
  {
    hide FixedBytes, VariableBytes;
    var body := FixedBytes(p) + VariableBytes(p);
    var b := EncodeBytes(H, p);
    assert b[..|b| - HASH] == body && b[|b| - HASH..] == H(body);
  }

  lemma StartIs(b: seq<Byte>)
    requires |b| >= 32 && |b| < U32_LIMIT && b[..8] == Magic && Get32(b[8..12]) == |b| && b[12..16] == Zeros4
    ensures StartBytes(|b|, b[16..32]) == b[..32]
  {
    assert Put32(|b|) == b[8..12];
    assert b[..32] == b[..8] + b[8..12] + b[12..16] + b[16..32];
  }

  lemma FixedIs(b: seq<Byte>, p: Plan)
    requires FIXED + HASH <= |b| < U32_LIMIT && Laid(b) && p == PlanAt(b)
    requires b[..8] == Magic && Get32(b[8..12]) == |b| && b[12..16] == Zeros4 && b[288..320] == Zeros32
    ensures Fits(p) && Total(p) == |b| && FixedBytes(p) == b[..FIXED]
  {
    hide StartBytes, TimesBytes, EpochsBytes, BudgetBytes, RefsBytes, SizesBytes, ConsoleBytes, TimesOf, EpochsOf, BudgetOf, RefsOf, SizesOf,
      ConsoleOf;
    StartIs(b);
    assert Total(p) == |b|;
    assert SizesIn(p) == SizesAt(b) && ConsoleIn(p) == ConsoleAt(b);
    assert b[..152] == b[..32] + b[32..64] + b[64..88] + b[88..120] + b[120..152];
    assert b[152..320] == b[152..184] + b[184..200] + b[200..224] + b[224..288] + b[288..320];
    assert b[..FIXED] == b[..152] + b[152..320];
  }

  lemma VariableIs(b: seq<Byte>, p: Plan)
    requires |b| >= FIXED + HASH && Laid(b) && p == PlanAt(b)
    ensures VariableBytes(p) == b[FIXED..|b| - HASH]
  {
    hide TimesOf, EpochsOf, BudgetOf, RefsOf, SizesAt, ConsoleAt;
    var a0 := FIXED + |p.switch0|;
    var a1 := a0 + |p.config0|;
    var a2 := a1 + |p.switch1|;
    var a3 := a2 + |p.config1|;
    assert a3 + |p.conSwitch| == |b| - HASH;
    Pieces(b, FIXED, a0, a1, a2, a3, |b| - HASH);
  }

  lemma Pieces(b: seq<Byte>, i0: nat, i1: nat, i2: nat, i3: nat, i4: nat, i5: nat)
    requires i0 <= i1 <= i2 <= i3 <= i4 <= i5 <= |b|
    ensures b[i0..i1] + b[i1..i2] + b[i2..i3] + b[i3..i4] + b[i4..i5] == b[i0..i5]
  {
    assert b[i0..i1] + b[i1..i2] == b[i0..i2];
    assert b[i0..i2] + b[i2..i3] == b[i0..i3];
    assert b[i0..i3] + b[i3..i4] == b[i0..i4];
  }

  /** Encoding what was decoded gives the bytes back, for every accepted byte string. */
  lemma EncodeDecode(H: Hash, native: Native, b: seq<Byte>)
    requires DecodeBytes(H, native, b).Some?
    ensures
      var p := DecodeBytes(H, native, b).value;
      ValidPlan(native, p) && Total(p) == |b| <= 262144 && EncodeBytes(H, p) == b
  {
    hide PlanAt, Laid, ValidPlan, FixedBytes, VariableBytes;
    var p := PlanAt(b);
    FixedIs(b, p);
    VariableIs(b, p);
    assert b == b[..FIXED] + b[FIXED..|b| - HASH] + b[|b| - HASH..];
    assert b[..FIXED] + b[FIXED..|b| - HASH] == b[..|b| - HASH];
  }

  // ------------------------------------------------------------------ the checks as they are made

  /** nonzero: stops at the first byte that is not zero. */
  method IsNonzero(b: seq<Byte>) returns (found: bool)
    ensures found <==> Nonzero(b)
  {
    for i := 0 to |b|
      invariant forall k :: 0 <= k < i ==> b[k] == 0
    {
      if b[i] != 0 {
        return true;
      }
    }
    return false;
  }

  /** Every reference is compared with the sequence and with the references before it. */
  method CheckRefs(refs: seq<U64>, sequence: U64) returns (ok: bool)
    ensures ok <==> RefsOk(refs, sequence)
  {
    for i := 0 to |refs|
      invariant forall k :: 0 <= k < i ==> 0 < refs[k] < sequence
      invariant forall j, k :: 0 <= k < j < i ==> refs[k] != refs[j]
    {
      if refs[i] == 0 || refs[i] >= sequence {
        return false;
      }
      for k := 0 to i
        invariant forall m :: 0 <= m < k ==> refs[m] != refs[i]
      {
        if refs[k] == refs[i] {
          return false;
        }
      }
    }
    return true;
  }

  /** Forty hexadecimal digits, then nothing but zeros. */
  method CheckThumbprint(t: Bytes64) returns (ok: bool)
    ensures ok <==> ThumbprintOk(t)
  {
    for i := 0 to 40
      invariant forall k :: 0 <= k < i ==> HexDigit(t[k])
    {
      if !HexDigit(t[i]) {
        return false;
      }
    }
    for i := 40 to 64
      invariant forall k :: 40 <= k < i ==> t[k] == 0
    {
      if t[i] != 0 {
        return false;
      }
    }
    return true;
  }

  method CheckPlan(native: Native, p: Plan) returns (ok: bool)
    ensures ok <==> ValidPlan(native, p)
  {
    hide Nonzero, RefsOk, ThumbprintOk, ConfigOk, BudgetValid;
    var a := IsNonzero(p.operation);
    var b := IsNonzero(p.epochs.workerCreated);
    var c := IsNonzero(p.epochs.supervisorCreated);
    var d := IsNonzero(p.sha);
    if !a || !b || !c || !d || p.times.sequence == 0 || p.times.generation == 0 || p.times.armed == 0 ||
       p.times.deadline <= p.times.armed || p.epochs.worker == 0 || p.epochs.supervisor == 0 ||
       p.epochs.worker == p.epochs.supervisor || !BudgetValid(p.budget) {
      return false;
    }
    var refs := CheckRefs(RefList(p), p.times.sequence);
    if !refs || !SwitchSize(p.switch0) || !SwitchSize(p.switch1) {
      return false;
    }
    var created := IsNonzero(p.conCreated);
    var thumbprint := CheckThumbprint(p.thumbprint);
    if p.conPid == 0 || !created || !SwitchSize(p.conSwitch) || !thumbprint {
      return false;
    }
    return native.switches(p.switch0, p.switch1, p.conSwitch) &&
           ConfigOk(native, p.config0, Ascii(MainConfig)) && ConfigOk(native, p.config1, Ascii(AclConfig));
  }

  // ------------------------------------------------------------------ the buffer and the cursor

  method Store(b: array<Byte>, at: nat, bytes: seq<Byte>)
    requires at + |bytes| <= b.Length
    modifies b
    ensures b[..at + |bytes|] == old(b[..at]) + bytes
  {
    for i := 0 to |bytes|
      invariant b[..at] == old(b[..at])
      invariant b[at..at + i] == bytes[..i]
    {
      b[at + i] := bytes[i];
      assert b[at..at + i + 1] == b[at..at + i] + [bytes[i]];
    }
    assert b[..at + |bytes|] == b[..at] + b[at..at + |bytes|];
  }

  /** The fixed part, group after group, into the first 320 bytes. */
  method StoreFixed(b: array<Byte>, p: Plan)
    requires Fits(p) && b.Length >= FIXED
    modifies b
    ensures b[..FIXED] == FixedBytes(p)
  {
    hide StartBytes, TimesBytes, EpochsBytes, BudgetBytes, RefsBytes, SizesBytes, ConsoleBytes, Total;
    Store(b, 0, StartBytes(Total(p), p.operation));
    Store(b, 32, TimesBytes(p.times));
    Store(b, 64, EpochsBytes(p.epochs));
    Store(b, 88, p.sha);
    Store(b, 120, BudgetBytes(p.budget));
    Store(b, 152, RefsBytes(p.refs));
    Store(b, 184, SizesBytes(SizesIn(p)));
    Store(b, 200, ConsoleBytes(ConsoleIn(p)));
    Store(b, 224, p.thumbprint);
    Store(b, 288, Zeros32);
  }

  /** l4_communication_plan_encode: the buffer holds exactly the encoding. */
  method Encode(H: Hash, native: Native, p: Plan) returns (ok: bool, b: array<Byte>)
    ensures ok <==> ValidPlan(native, p) && Total(p) <= LIMIT
    ensures ok ==> fresh(b) && Fits(p) && b[..] == EncodeBytes(H, p)
  {
    hide ValidPlan, FixedBytes;
    var valid := CheckPlan(native, p);
    if !valid || Total(p) > LIMIT {
      ok, b := false, new Byte[0];
      return;
    }
    b := new Byte[Total(p)](_ => 0);
    StoreFixed(b, p);
    var at := StoreVariable(b, p);
    Store(b, at, H(b[..at]));
    assert b[..] == b[..at + HASH];
    ok := true;
  }

  /** The variable parts after the fixed one. */
  method StoreVariable(b: array<Byte>, p: Plan) returns (at: nat)
    requires b.Length == Total(p)
    modifies b
    ensures at == Total(p) - HASH && b[..at] == old(b[..FIXED]) + VariableBytes(p)
  {
    ghost var f := b[..FIXED];
    at := StoreAfter(b, FIXED, p.switch0, f);
    at := StoreAfter(b, at, p.config0, f + p.switch0);
    at := StoreAfter(b, at, p.switch1, f + p.switch0 + p.config0);
    at := StoreAfter(b, at, p.config1, f + p.switch0 + p.config0 + p.switch1);
    at := StoreAfter(b, at, p.conSwitch, f + p.switch0 + p.config0 + p.switch1 + p.config1);
    assert f + VariableBytes(p) == f + p.switch0 + p.config0 + p.switch1 + p.config1 + p.conSwitch;
  }

  /** One part at the cursor, which moves past it. */
  method StoreAfter(b: array<Byte>, at: nat, bytes: seq<Byte>, ghost before: seq<Byte>) returns (next: nat)
    requires at + |bytes| <= b.Length && b[..at] == before
    modifies b
    ensures next == at + |bytes| && b[..next] == before + bytes
  {
    Store(b, at, bytes);
    return at + |bytes|;
  }

  /** One variable part: it must fit before the trailing hash, so the cursor never passes it. */
  method Take(b: seq<Byte>, at: U32, n: U32) returns (part: Option<seq<Byte>>, next: U32)
    requires HASH <= |b| < U32_LIMIT && at <= |b| - HASH
    ensures part.Some? <==> at + n <= |b| - HASH
    ensures part.Some? ==> part.value == b[at..at + n] && next == at + n
    ensures at <= next <= |b| - HASH
  {
    var left: U32 := |b| - HASH - at;
    if n > left {
      return None, at;
    }
    return Some(b[at..at + n]), at + n;
  }

  datatype Parts = Parts(switch0: seq<Byte>, config0: seq<Byte>, switch1: seq<Byte>, config1: seq<Byte>, conSwitch: seq<Byte>)

  function PartsOf(p: Plan): Parts {
    Parts(p.switch0, p.config0, p.switch1, p.config1, p.conSwitch)
  }

  method TakeParts(b: seq<Byte>) returns (r: Option<Parts>)
    requires FIXED + HASH <= |b| < U32_LIMIT
    ensures r.Some? <==> Laid(b)
    ensures r.Some? ==> r.value == PartsOf(PlanAt(b))
  {
    hide TimesOf, EpochsOf, BudgetOf, RefsOf, SizesAt, ConsoleAt;
    var sizes, console := SizesAt(b), ConsoleAt(b);
    var switch0, a0 := Take(b, FIXED, sizes.switch0);
    if switch0.None? {
      return None;
    }
    var config0, a1 := Take(b, a0, sizes.config0);
    if config0.None? {
      return None;
    }
    var switch1, a2 := Take(b, a1, sizes.switch1);
    if switch1.None? {
      return None;
    }
    var config1, a3 := Take(b, a2, sizes.config1);
    if config1.None? {
      return None;
    }
    var conSwitch, end := Take(b, a3, console.size);
    if conSwitch.None? || end != |b| - HASH {
      return None;
    }
    return Some(Parts(switch0.value, config0.value, switch1.value, config1.value, conSwitch.value));
  }

  /** l4_communication_plan_decode. */
  method Decode(H: Hash, native: Native, b: seq<Byte>) returns (r: Option<Plan>)
    ensures r == DecodeBytes(H, native, b)
  {
    hide ValidPlan, TimesOf, EpochsOf, BudgetOf, RefsOf, SizesAt, ConsoleAt, Laid;
    if !Framed(H, b) {
      return None;
    }
    var parts := TakeParts(b);
    if parts.None? {
      return None;
    }
    var v, console := parts.value, ConsoleAt(b);
    var p := Plan(b[16..32], TimesOf(b[32..64]), EpochsOf(b[64..88]), b[88..120], BudgetOf(b[120..152]), RefsOf(b[152..184]),
                  v.switch0, v.config0, v.switch1, v.config1, console.sequence, console.pid, console.created, v.conSwitch, b[224..288]);
    var valid := CheckPlan(native, p);
    return if valid then Some(p) else None;
  }
}

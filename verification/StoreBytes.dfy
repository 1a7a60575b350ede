/** Fixed-width little-endian numbers as the journal and plan stores lay them out. */
module StoreBytes {

  type Byte = x: int | 0 <= x < 256

  datatype Option<+T> = None | Some(value: T)

  const U32_LIMIT: nat := 0x1_0000_0000
  const U64_LIMIT: nat := 0x1_0000_0000_0000_0000

  type U32 = x: int | 0 <= x < 0x1_0000_0000
  type U64 = x: int | 0 <= x < 0x1_0000_0000_0000_0000

  /** 256 to the n-th power: the first value that does not fit in n bytes. */
  function Limit(n: nat): (r: nat)
    ensures r > 0
  {
    if n == 0 then 1 else 256 * Limit(n - 1)
  }

  function Put(v: nat, n: nat): (b: seq<Byte>)
    ensures |b| == n
    decreases v, n
  {
    if n == 0 then [] else [v % 256] + Put(v / 256, n - 1)
  }

  function Get(b: seq<Byte>): (v: nat)
    decreases |b|
  {
    if b == [] then 0 else b[0] + 256 * Get(b[1..])
  }

  lemma {:induction false} GetBound(b: seq<Byte>)
    ensures Get(b) < Limit(|b|)
  {
    if b != [] {
      GetBound(b[1..]);
    }
  }

  /** Reading back a number that fits its width gives that number. */
  lemma {:induction false} GetPut(v: nat, n: nat)
    requires v < Limit(n)
    ensures Get(Put(v, n)) == v
    decreases n
  {
    if n > 0 {
      GetPut(v / 256, n - 1);
      assert Put(v, n)[1..] == Put(v / 256, n - 1);
    }
  }

  /** Every byte string is the encoding of the number it reads as. */
  lemma {:induction false} PutGet(b: seq<Byte>)
    ensures Put(Get(b), |b|) == b
    decreases |b|
  {
    if b != [] {
      PutGet(b[1..]);
      assert Get(b) % 256 == b[0] && Get(b) / 256 == Get(b[1..]);
      assert b == [b[0]] + b[1..];
    }
  }

  lemma Limits()
    ensures Limit(4) == U32_LIMIT
    ensures Limit(8) == U64_LIMIT
  {
    assert Limit(2) == 65536;
    assert Limit(4) == 65536 * 65536;
    assert Limit(6) == 65536 * 65536 * 65536;
  }

  function Put32(v: U32): (b: seq<Byte>)
    ensures |b| == 4
    ensures Get(b) == v
  {
    Limits();
    GetPut(v, 4);
    Put(v, 4)
  }

  function Put64(v: U64): (b: seq<Byte>)
    ensures |b| == 8
    ensures Get(b) == v
  {
    Limits();
    GetPut(v, 8);
    Put(v, 8)
  }

  function Get32(b: seq<Byte>): (v: U32)
    requires |b| == 4
    ensures Put32(v) == b
  {
    Limits();
    GetBound(b);
    PutGet(b);
    Get(b)
  }

  function Get64(b: seq<Byte>): (v: U64)
    requires |b| == 8
    ensures Put64(v) == b
  {
    Limits();
    GetBound(b);
    PutGet(b);
    Get(b)
  }

  /** Four bytes, least significant first. */
  lemma Put32Bytes(v: U32)
    ensures Put32(v) == [v % 256, v / 0x100 % 256, v / 0x1_0000 % 256, v / 0x100_0000]
  {
    var a := v / 0x100;
    var b := a / 0x100;
    var c := b / 0x100;
    assert b == v / 0x1_0000 && c == v / 0x100_0000 && c < 256;
    assert Put(c, 1) == [c % 256] + Put(c / 256, 0);
    assert Put(b, 2) == [b % 256] + Put(c, 1);
    assert Put(a, 3) == [a % 256] + Put(b, 2);
    assert Put(v, 4) == [v % 256] + Put(a, 3);
  }

  /** Eight bytes are the four of the low half and then the four of the high half. */
  lemma Put64Bytes(v: U64)
    ensures Put64(v) == Put32(v % U32_LIMIT) + Put32(v / U32_LIMIT)
  {
    var low, high := v % U32_LIMIT, v / U32_LIMIT;
    var b := Put32(low) + Put32(high);
    GetHalves(Put32(low), Put32(high));
    assert Get(b) == v;
    PutGet(b);
  }

  lemma GetHalves(low: seq<Byte>, high: seq<Byte>)
    requires |low| == 4
    ensures Get(low + high) == Get(low) + U32_LIMIT * Get(high)
  {
    var b := low + high;
    assert b[1..][1..][1..][1..] == high;
    assert b[0] == low[0] && b[1..][0] == low[1] && b[1..][1..][0] == low[2] && b[1..][1..][1..][0] == low[3];
    assert low[1..][1..][1..][1..] == [];
    assert Get(b) == b[0] + 256 * Get(b[1..]);
    assert Get(b[1..]) == low[1] + 256 * Get(b[1..][1..]);
    assert Get(b[1..][1..]) == low[2] + 256 * Get(b[1..][1..][1..]);
    assert Get(b[1..][1..][1..]) == low[3] + 256 * Get(high);
    assert Get(low) == low[0] + 256 * Get(low[1..]);
    assert Get(low[1..]) == low[1] + 256 * Get(low[1..][1..]);
    assert Get(low[1..][1..]) == low[2] + 256 * Get(low[1..][1..][1..]);
    assert Get(low[1..][1..][1..]) == low[3] + 256 * Get([]);
  }
}

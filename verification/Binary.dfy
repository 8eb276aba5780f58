/** Little-endian numbers and the cursor readers (crates/termlm-indexer/src/store.rs). */
module Binary {
  import opened Wrappers
  import opened Utf8

  const U32_LIMIT: nat := 0x1_0000_0000
  const U64_LIMIT: nat := 0x1_0000_0000_0000_0000

  type u32 = n: int | 0 <= n < 0x1_0000_0000
  type u64 = n: int | 0 <= n < 0x1_0000_0000_0000_0000
  type i64 = n: int | -0x8000_0000_0000_0000 <= n < 0x8000_0000_0000_0000

  /** The lowest `width` bytes of a number; what does not fit is cut off. */
  function LittleEndian(n: nat, width: nat): (b: Bytes)
    ensures |b| == width
    decreases width
  {
    if width == 0 then [] else [n % 256] + LittleEndian(n / 256, width - 1)
  }

  function FromLittleEndian(b: Bytes): nat {
    if b == [] then 0 else b[0] + 256 * FromLittleEndian(b[1..])
  }

  function Pow256(width: nat): nat { if width == 0 then 1 else 256 * Pow256(width - 1) }

  lemma {:induction false} LittleEndianRoundTrip(n: nat, width: nat)
    requires n < Pow256(width)
    ensures FromLittleEndian(LittleEndian(n, width)) == n
    decreases width
  {
    if width > 0 { LittleEndianRoundTrip(n / 256, width - 1); }
  }

  /** `(n as u32).to_le_bytes()`. */
  function U32(n: nat): (b: Bytes) ensures |b| == 4 { LittleEndian(n % U32_LIMIT, 4) }

  /** How many of `n` records a 32-bit count tells of. */
  function Kept(n: nat): (k: nat)
    ensures k <= n && (k == n <==> n < U32_LIMIT)
  {
    n % U32_LIMIT
  }

  function U64(n: u64): (b: Bytes) ensures |b| == 8 { LittleEndian(n, 8) }

  /** Two's complement. */
  function I64(n: i64): (b: Bytes) ensures |b| == 8 { U64(if n < 0 then n + U64_LIMIT else n) }

  // ---------- reading a number ----------

  lemma {:induction false} Powers()
    ensures Pow256(4) == U32_LIMIT && Pow256(8) == U64_LIMIT
  {
    assert Pow256(2) == 0x1_0000;
    assert Pow256(4) == U32_LIMIT;
    assert Pow256(6) == 0x1_0000_0000_0000;
  }

  lemma {:induction false} LittleEndianBound(b: Bytes)
    ensures FromLittleEndian(b) < Pow256(|b|)
  {
    if b != [] { LittleEndianBound(b[1..]); }
  }

  /** `u64::from_le_bytes`. */
  function GetU64(b: Bytes): (n: u64)
    requires |b| == 8
  {
    LittleEndianBound(b);
    Powers();
    FromLittleEndian(b)
  }

  function GetU32(b: Bytes): (n: u32)
    requires |b| == 4
  {
    LittleEndianBound(b);
    Powers();
    FromLittleEndian(b)
  }

  function Signed(n: u64): i64 { if n >= U64_LIMIT / 2 then n - U64_LIMIT else n }

  function GetI64(b: Bytes): (n: i64)
    requires |b| == 8
  {
    Signed(GetU64(b))
  }

  // ---------- taking a number off the front ----------

  function TakeBytes(b: Bytes, n: nat): (r: Option<(Bytes, Bytes)>) {
    if |b| < n then None else Some((b[..n], b[n..]))
  }

  function TakeU32(b: Bytes): Option<(u32, Bytes)> {
    if |b| < 4 then None else Some((GetU32(b[..4]), b[4..]))
  }

  function TakeU64(b: Bytes): Option<(u64, Bytes)> {
    if |b| < 8 then None else Some((GetU64(b[..8]), b[8..]))
  }

  lemma {:induction false} TakeBytesBack(b: Bytes, rest: Bytes)
    ensures TakeBytes(b + rest, |b|) == Some((b, rest))
  {
    assert (b + rest)[..|b|] == b && (b + rest)[|b|..] == rest;
  }

  /** What was appended is read back, cut to 32 bits. */
  lemma {:induction false} TakeU32Back(n: nat, rest: Bytes)
    ensures TakeU32(U32(n) + rest) == Some((n % U32_LIMIT, rest))
  {
    Powers();
    TakeBytesBack(U32(n), rest);
    LittleEndianRoundTrip(n % U32_LIMIT, 4);
  }

  lemma {:induction false} TakeU32Same(n: u32, rest: Bytes)
    ensures TakeU32(U32(n) + rest) == Some((n, rest))
  {
    TakeU32Back(n, rest);
  }

  lemma {:induction false} TakeU64Back(n: u64, rest: Bytes)
    ensures TakeU64(U64(n) + rest) == Some((n, rest))
  {
    Powers();
    TakeBytesBack(U64(n), rest);
    LittleEndianRoundTrip(n, 8);
  }

  lemma {:induction false} TakeI64Back(n: i64, rest: Bytes)
    ensures TakeU64(I64(n) + rest).Some?
    ensures Signed(TakeU64(I64(n) + rest).value.0) == n && TakeU64(I64(n) + rest).value.1 == rest
  {
    TakeU64Back(if n < 0 then n + U64_LIMIT else n, rest);
  }

  lemma {:induction false} GetU32Back(n: u32)
    ensures GetU32(U32(n)) == n
  {
    Powers();
    assert n % U32_LIMIT == n;
    LittleEndianRoundTrip(n, 4);
  }

  lemma {:induction false} GetU64Back(n: u64)
    ensures GetU64(U64(n)) == n
  {
    Powers();
    LittleEndianRoundTrip(n, 8);
  }

  lemma {:induction false} GetI64Back(n: i64)
    ensures GetI64(I64(n)) == n
  {
    GetU64Back(if n < 0 then n + U64_LIMIT else n);
  }

  /** A magic number and a count. */
  function Header(magic: Bytes, count: nat): Bytes { magic + U32(count) }

  lemma {:induction false} HeaderRead(magic: Bytes, n: nat, rest: Bytes)
    requires |magic| == 8
    ensures var file := Header(magic, n) + rest;
      |file| >= 12 && file[..8] == magic && file[12..] == rest && file[8..] == U32(n) + rest &&
        GetU32(file[8..12]) == Kept(n)
  {
    var file := Header(magic, n) + rest;
    assert file[8..12] == U32(n);
    assert U32(n) == U32(n % U32_LIMIT);
    GetU32Back(n % U32_LIMIT);
  }

  // ---------- records of one size ----------

  /** The records of a list, one after another. */
  function Records<T>(record: T -> Bytes, s: seq<T>): Bytes {
    if s == [] then [] else Records(record, s[..|s| - 1]) + record(s[|s| - 1])
  }

  lemma {:induction false} RecordsNext<T>(record: T -> Bytes, s: seq<T>, i: nat)
    requires i < |s|
    ensures Records(record, s[..i + 1]) == Records(record, s[..i]) + record(s[i])
  {
    assert s[..i + 1][..i] == s[..i] && s[..i + 1][i] == s[i];
  }

  lemma {:induction false} RecordsJoin<T>(record: T -> Bytes, a: seq<T>, b: seq<T>)
    ensures Records(record, a + b) == Records(record, a) + Records(record, b)
  {
    if b == [] {
      assert a + b == a;
    } else {
      assert (a + b)[..|a + b| - 1] == a + b[..|b| - 1];
      RecordsJoin(record, a, b[..|b| - 1]);
    }
  }

  lemma {:induction false} RecordsFront<T>(record: T -> Bytes, s: seq<T>)
    requires s != []
    ensures Records(record, s) == record(s[0]) + Records(record, s[1..])
  {
    if |s| == 1 {
      assert s[..0] == [] && s[1..] == [];
    } else {
      var n := |s| - 1;
      RecordsFront(record, s[..n]);
      assert s[..n][1..] == s[1..][..n - 1];
    }
  }

  method PutRecords<T>(record: T -> Bytes, s: seq<T>, header: Bytes) returns (payload: Bytes)
    ensures payload == header + Records(record, s)
  {
    payload := header;
    for i := 0 to |s|
      invariant payload == header + Records(record, s[..i])
    {
      RecordsNext(record, s, i);
      payload := payload + record(s[i]);
    }
    assert s[..|s|] == s;
  }

  lemma {:induction false} InPrefix(a: Bytes, b: Bytes, i: nat, j: nat)
    requires i <= j <= |a|
    ensures (a + b)[i..j] == a[i..j]
  {
  }

  /** Record `i` is where its number says. */
  lemma {:induction false} RecordAt<T>(record: T -> Bytes, s: seq<T>, size: nat)
    requires forall k :: 0 <= k < |s| ==> |record(s[k])| == size
    ensures |Records(record, s)| == |s| * size
    ensures forall i :: 0 <= i < |s| ==>
      i * size + size <= |s| * size && Records(record, s)[i * size..i * size + size] == record(s[i])
  {
    if s != [] {
      var n := |s| - 1;
      var before, all := Records(record, s[..n]), Records(record, s);
      RecordAt(record, s[..n], size);
      assert |all| == n * size + size == |s| * size;
      forall i | 0 <= i < |s| ensures i * size + size <= |s| * size && all[i * size..i * size + size] == record(s[i]) {
        if i < n {
          assert record(s[..n][i]) == before[i * size..i * size + size];
          InPrefix(before, record(s[n]), i * size, i * size + size);
        } else {
          assert all[n * size..] == record(s[n]);
        }
      }
    }
  }

  /** The parts of a sum. */
  lemma {:induction false} TwoParts(a: Bytes, b: Bytes)
    ensures (a + b)[0..|a|] == a && (a + b)[|a|..|a| + |b|] == b
  {
  }

  lemma {:induction false} PartOfTail(raw: Bytes, at: nat, i: nat, j: nat)
    requires i <= j && at + j <= |raw|
    ensures raw[at..][i..j] == raw[at + i..at + j]
  {
    forall k | 0 <= k < j - i ensures raw[at..][i..j][k] == raw[at + i..at + j][k] {
    }
    assert |raw[at..][i..j]| == |raw[at + i..at + j]|;
  }

  lemma {:induction false} FewerRecords(n: nat, m: nat, size: nat)
    requires n <= m
    ensures n * size <= m * size
  {
  }

  /** A part of a part. */
  lemma {:induction false} PartOf(raw: Bytes, base: nat, b: Bytes, i: nat, j: nat)
    requires base + |b| <= |raw| && raw[base..base + |b|] == b && i <= j <= |b|
    ensures raw[base + i..base + j] == b[i..j]
  {
    forall k | 0 <= k < j - i ensures raw[base + i..base + j][k] == b[i..j][k] {
      assert b[i + k] == raw[base..base + |b|][i + k];
    }
    assert |raw[base + i..base + j]| == |b[i..j]|;
  }

  // ---------- the cursor ----------

  class Cursor {
    const raw: Bytes
    var at: nat

    ghost predicate Valid()
      reads this
    {
      at <= |raw|
    }

    function Rest(): Bytes
      reads this
      requires Valid()
    {
      raw[at..]
    }

    constructor (raw: Bytes, at: nat)
      requires at <= |raw|
      ensures Valid() && this.raw == raw && Rest() == raw[at..]
    {
      this.raw, this.at := raw, at;
    }

    method ReadBytes(n: nat) returns (r: Option<Bytes>)
      requires Valid()
      modifies this
      ensures Valid()
      ensures match TakeBytes(old(Rest()), n)
        case Some((b, rest)) => r == Some(b) && Rest() == rest
        case None => r == None && Rest() == old(Rest())
    {
      if |raw| - at < n {
        return None;
      }
      r := Some(raw[at..at + n]);
      assert raw[at..][..n] == raw[at..at + n];
      at := at + n;
    }

    method ReadU32() returns (r: Option<u32>)
      requires Valid()
      modifies this
      ensures Valid()
      ensures match TakeU32(old(Rest()))
        case Some((n, rest)) => r == Some(n) && Rest() == rest
        case None => r == None && Rest() == old(Rest())
    {
      var b := ReadBytes(4);
      r := match b case Some(b) => Some(GetU32(b)) case None => None;
    }

    method ReadU64() returns (r: Option<u64>)
      requires Valid()
      modifies this
      ensures Valid()
      ensures match TakeU64(old(Rest()))
        case Some((n, rest)) => r == Some(n) && Rest() == rest
        case None => r == None && Rest() == old(Rest())
    {
      var b := ReadBytes(8);
      r := match b case Some(b) => Some(GetU64(b)) case None => None;
    }

    method ReadI64() returns (r: Option<i64>)
      requires Valid()
      modifies this
      ensures Valid()
      ensures match TakeU64(old(Rest()))
        case Some((n, rest)) => r == Some(Signed(n)) && Rest() == rest
        case None => r == None && Rest() == old(Rest())
    {
      var n := ReadU64();
      r := match n case Some(n) => Some(Signed(n)) case None => None;
    }

    method ReadU8() returns (r: Option<byte>)
      requires Valid()
      modifies this
      ensures Valid()
      ensures if old(Rest()) == [] then r == None && Rest() == []
        else r == Some(old(Rest())[0]) && Rest() == old(Rest())[1..]
    {
      var b := ReadBytes(1);
      r := match b case Some(b) => Some(b[0]) case None => None;
    }
  }
}

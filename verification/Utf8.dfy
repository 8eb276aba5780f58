/**
 * Text as Rust sees it: a string is a sequence of Unicode scalar values, its bytes are its UTF-8 form (RFC 3629,
 * section 3).
 */
module Utf8 {
  import opened Wrappers
  import opened Ordering

  type byte = x: int | 0 <= x < 256

  type Bytes = seq<byte>

  predicate IsScalar(u: int) {
    0 <= u < 0xD800 || 0xE000 <= u < 0x11_0000
  }

  function EncodeScalar(u: int): (r: Bytes)
    requires IsScalar(u)
    ensures 1 <= |r| <= 4
  {
    if u < 0x80 then [u]
    else if u < 0x800 then [0xC0 + u / 0x40, 0x80 + u % 0x40]
    else if u < 0x1_0000 then [0xE0 + u / 0x1000, 0x80 + u / 0x40 % 0x40, 0x80 + u % 0x40]
    else [0xF0 + u / 0x4_0000, 0x80 + u / 0x1000 % 0x40, 0x80 + u / 0x40 % 0x40, 0x80 + u % 0x40]
  }

  /** The six bits that a byte after the first holds. */
  function Bits(b: byte): int { b as int - 0x80 }

  predicate AreLater(b: Bytes) {
    forall i :: 0 <= i < |b| ==> 0x80 <= b[i] < 0xC0
  }

  lemma {:induction false} OneOrTwoBytes(u: int)
    requires IsScalar(u)
    ensures var b := EncodeScalar(u);
      && (u < 0x80 ==> b == [u])
      && (0x80 <= u < 0x800 ==>
            |b| == 2 && 0xC0 <= b[0] < 0xE0 && AreLater(b[1..]) && u == (b[0] as int - 0xC0) * 64 + Bits(b[1]))
  {
  }

  lemma {:induction false} ThreeBytes(u: int)
    requires IsScalar(u) && 0x800 <= u < 0x1_0000
    ensures var b := EncodeScalar(u);
      && |b| == 3 && 0xE0 <= b[0] < 0xF0 && AreLater(b[1..])
      && u == ((b[0] as int - 0xE0) * 64 + Bits(b[1])) * 64 + Bits(b[2])
  {
    assert u / 0x1000 == u / 0x40 / 0x40;
  }

  lemma {:induction false} FourBytes(u: int)
    requires IsScalar(u) && 0x1_0000 <= u
    ensures var b := EncodeScalar(u);
      && |b| == 4 && 0xF0 <= b[0] < 0xF8 && AreLater(b[1..])
      && u == (((b[0] as int - 0xF0) * 64 + Bits(b[1])) * 64 + Bits(b[2])) * 64 + Bits(b[3])
  {
    assert u / 0x1000 == u / 0x40 / 0x40 && u / 0x4_0000 == u / 0x1000 / 0x40;
  }

  function EncodeChar(c: char): (r: Bytes)
    ensures 1 <= |r| <= 4
  {
    EncodeScalar(c as int)
  }

  /** The bytes of a string. */
  function Encode(s: string): (r: Bytes)
    ensures |s| <= |r| <= 4 * |s|
  {
    if s == [] then [] else EncodeChar(s[0]) + Encode(s[1..])
  }

  /** `str::len`: the length in bytes. */
  function Len(s: string): nat { |Encode(s)| }

  /** The payload bits of a byte above its marker. */
  function Payload(b: byte, marker: int): int { b - marker }

  /** The scalar value the first bytes claim to encode, and how many they are. */
  function Claimed(b: Bytes): (r: (int, nat))
    requires b != []
    ensures 1 <= r.1 <= |b|
  {
    if b[0] < 0x80 then (Payload(b[0], 0), 1)
    else if b[0] < 0xE0 && |b| >= 2 then (Payload(b[0], 0xC0) * 0x40 + Payload(b[1], 0x80), 2)
    else if 0xE0 <= b[0] < 0xF0 && |b| >= 3 then
      (Payload(b[0], 0xE0) * 0x1000 + Payload(b[1], 0x80) * 0x40 + Payload(b[2], 0x80), 3)
    else if 0xF0 <= b[0] && |b| >= 4 then
      (Payload(b[0], 0xF0) * 0x4_0000 + Payload(b[1], 0x80) * 0x1000 + Payload(b[2], 0x80) * 0x40 +
        Payload(b[3], 0x80), 4)
    else (-1, 1)
  }

  /** `str::from_utf8`: overlong forms, surrogates and stray bytes are refused. */
  function Decode(b: Bytes): Option<string> {
    if b == [] then Some([]) else
      var (u, n) := Claimed(b);
      if IsScalar(u) && EncodeScalar(u) == b[..n] then
        match Decode(b[n..])
        case Some(rest) => Some([u as char] + rest)
        case None => None
      else None
  }

  /** `String::from_utf8_lossy`; how malformed input is repaired is left open. */
  function Lossy(repair: Bytes -> string, b: Bytes): string {
    match Decode(b)
    case Some(s) => s
    case None => repair(b)
  }

  lemma {:induction false} EncodeConcat(s: string, t: string)
    ensures Encode(s + t) == Encode(s) + Encode(t)
  {
    if s == [] {
      assert s + t == t;
    } else {
      assert (s + t)[1..] == s[1..] + t;
      EncodeConcat(s[1..], t);
    }
  }

  lemma {:induction false} ClaimedOfEncoded(u: int, rest: Bytes)
    requires IsScalar(u)
    ensures Claimed(EncodeScalar(u) + rest) == (u, |EncodeScalar(u)|)
  {
    assert u == u / 0x40 * 0x40 + u % 0x40;
    assert u / 0x40 == u / 0x1000 * 0x40 + u / 0x40 % 0x40;
    assert u / 0x1000 == u / 0x4_0000 * 0x40 + u / 0x1000 % 0x40;
  }

  /** Decoding inverts encoding. */
  lemma {:induction false} DecodeEncode(s: string)
    ensures Decode(Encode(s)) == Some(s)
  {
    if s != [] {
      var first := EncodeChar(s[0]);
      var b := Encode(s);
      ClaimedOfEncoded(s[0] as int, Encode(s[1..]));
      assert b[..|first|] == first && b[|first|..] == Encode(s[1..]);
      assert Claimed(b) == (s[0] as int, |first|) by { assert b == first + Encode(s[1..]); }
      DecodeEncode(s[1..]);
      assert [s[0]] + s[1..] == s;
    }
  }

  /** What a successful decode of a non-empty text went through. */
  lemma {:induction false} DecodeStep(b: Bytes) returns (head: Bytes, u: int, rest: string)
    requires b != [] && Decode(b).Some?
    ensures IsScalar(u) && head == EncodeScalar(u) && head <= b && head != []
    ensures Decode(b[|head|..]) == Some(rest) && Decode(b) == Some([u as char] + rest)
  {
    var (v, n) := Claimed(b);
    u, head, rest := v, b[..n], Decode(b[n..]).value;
  }

  /** Only the encoding of a string decodes to it. */
  lemma {:induction false} EncodeDecode(b: Bytes, s: string)
    requires Decode(b) == Some(s)
    ensures Encode(s) == b
    decreases |b|
  {
    if b != [] {
      var head, u, rest := DecodeStep(b);
      var tail := b[|head|..];
      EncodeDecode(tail, rest);
      calc {
        Encode(s);
        Encode([u as char] + rest);
        { EncodeCons(u, rest); }
        head + tail;
        b;
      }
    }
  }

  lemma {:induction false} EncodeCons(u: int, rest: string)
    requires IsScalar(u)
    ensures Encode([u as char] + rest) == EncodeScalar(u) + Encode(rest)
  {
    assert ([u as char] + rest)[1..] == rest;
  }

  /** Text cut between characters decodes piece by piece. */
  lemma {:induction false} DecodeConcat(a: Bytes, b: Bytes)
    requires Decode(a).Some? && Decode(b).Some?
    ensures Decode(a + b) == Some(Decode(a).value + Decode(b).value)
  {
    EncodeDecode(a, Decode(a).value);
    EncodeDecode(b, Decode(b).value);
    EncodeConcat(Decode(a).value, Decode(b).value);
    DecodeEncode(Decode(a).value + Decode(b).value);
  }

  // ---------- order ----------

  /** Lexicographic order on bytes. */
  predicate BytesLeq(a: Bytes, b: Bytes) {
    a == [] || (b != [] && (a[0] < b[0] || (a[0] == b[0] && BytesLeq(a[1..], b[1..]))))
  }

  /** Of two bytes that differ, the first pair decides. */
  lemma {:induction false} FirstByteDecides(a: Bytes, b: Bytes, i: nat)
    requires i < |a| && i < |b| && a[..i] == b[..i] && a[i] != b[i]
    ensures BytesLeq(a, b) <==> a[i] < b[i]
  {
    if i > 0 {
      assert a[0] == a[..i][0] && b[0] == b[..i][0];
      assert a[1..][..i - 1] == a[..i][1..] && b[1..][..i - 1] == b[..i][1..];
      FirstByteDecides(a[1..], b[1..], i - 1);
    }
  }

  lemma {:induction false} CommonBytes(a: Bytes, b: Bytes, c: Bytes)
    ensures BytesLeq(a + b, a + c) <==> BytesLeq(b, c)
  {
    if a == [] {
      assert a + b == b && a + c == c;
    } else {
      assert (a + b)[1..] == a[1..] + b && (a + c)[1..] == a[1..] + c;
      CommonBytes(a[1..], b, c);
    }
  }

  /** The encodings of two characters differ at a byte that orders them. */
  lemma {:induction false} ScalarsDiffer(u: int, v: int) returns (i: nat)
    requires IsScalar(u) && IsScalar(v) && u < v
    ensures i < |EncodeScalar(u)| && i < |EncodeScalar(v)|
    ensures EncodeScalar(u)[..i] == EncodeScalar(v)[..i] && EncodeScalar(u)[i] < EncodeScalar(v)[i]
  {
    var a, b := EncodeScalar(u), EncodeScalar(v);
    if a[0] != b[0] {
      LeadingByte(u, v);
      i := 0;
    } else {
      SameLength(u, v);
      i := if a[1] != b[1] then 1 else if |a| > 2 && a[2] != b[2] then 2 else |a| - 1;
      LaterByte(u, v, i);
    }
  }

  lemma {:induction false} LeadingByte(u: int, v: int)
    requires IsScalar(u) && IsScalar(v) && u < v
    ensures EncodeScalar(u)[0] <= EncodeScalar(v)[0]
  {
  }

  lemma {:induction false} SameLength(u: int, v: int)
    requires IsScalar(u) && IsScalar(v) && u < v && EncodeScalar(u)[0] == EncodeScalar(v)[0]
    ensures |EncodeScalar(u)| == |EncodeScalar(v)| >= 2
  {
  }

  /** After a common start, the first byte that differs is smaller in the smaller character. */
  lemma {:induction false} LaterByte(u: int, v: int, i: nat)
    requires IsScalar(u) && IsScalar(v) && u < v
    requires var a, b := EncodeScalar(u), EncodeScalar(v);
      && |a| == |b| >= 2 && a[0] == b[0] && 1 <= i < |a| && (forall k :: 1 <= k < i ==> a[k] == b[k])
      && (i < |a| - 1 ==> a[i] != b[i])
    ensures var a, b := EncodeScalar(u), EncodeScalar(v);
      a[..i] == b[..i] && a[i] < b[i]
  {
    var a, b := EncodeScalar(u), EncodeScalar(v);
    assert forall k :: 0 <= k < i ==> a[k] == b[k];
    assert a[0] == b[0] && (i > 1 ==> a[1] == b[1]) && (i > 2 ==> a[2] == b[2]);
    if |a| == 2 {
      LastDigit(u, v);
    } else if |a| == 3 {
      if i == 2 { SameAbove(u, v, u / 0x1000, v / 0x1000); LastDigit(u, v); } else { NextDigit(u, v); }
    } else {
      ThirdDigit(u, v, i);
    }
  }

  lemma {:induction false} LastDigit(u: nat, v: nat)
    requires u < v && u / 0x40 == v / 0x40
    ensures u % 0x40 < v % 0x40
  {
    Split64(u);
    Split64(v);
  }

  lemma {:induction false} SameAbove(u: nat, v: nat, p: nat, q: nat)
    requires p == u / 0x1000 && q == v / 0x1000 && p == q && u / 0x40 % 0x40 == v / 0x40 % 0x40
    ensures u / 0x40 == v / 0x40
  {
    Split64(u / 0x40);
    Split64(v / 0x40);
    assert u / 0x40 / 0x40 == u / 0x1000 && v / 0x40 / 0x40 == v / 0x1000;
  }

  lemma {:induction false} NextDigit(u: nat, v: nat)
    requires u < v && u / 0x1000 == v / 0x1000
    ensures u / 0x40 % 0x40 <= v / 0x40 % 0x40
  {
    Split64(u / 0x40);
    Split64(v / 0x40);
    assert u / 0x40 / 0x40 == u / 0x1000 && v / 0x40 / 0x40 == v / 0x1000 && u / 0x40 <= v / 0x40;
  }

  lemma {:induction false} ThirdDigit(u: nat, v: nat, i: nat)
    requires u < v && 1 <= i <= 3 && u / 0x4_0000 == v / 0x4_0000
    requires i > 1 ==> u / 0x1000 % 0x40 == v / 0x1000 % 0x40
    requires i > 2 ==> u / 0x40 % 0x40 == v / 0x40 % 0x40
    ensures i == 1 ==> u / 0x1000 % 0x40 <= v / 0x1000 % 0x40
    ensures i == 2 ==> u / 0x40 % 0x40 <= v / 0x40 % 0x40
    ensures i == 3 ==> u % 0x40 < v % 0x40
  {
    assert u / 0x1000 / 0x40 == u / 0x4_0000 && v / 0x1000 / 0x40 == v / 0x4_0000;
    Split64(u / 0x1000);
    Split64(v / 0x1000);
    if i == 1 {
      assert u / 0x1000 <= v / 0x1000;
    } else {
      NextDigit(u, v);
      if i == 3 {
        SameAbove(u, v, u / 0x1000, v / 0x1000);
        LastDigit(u, v);
      }
    }
  }

  lemma {:induction false} Split64(x: nat)
    ensures x == x / 0x40 * 0x40 + x % 0x40
  {
  }

  /** The order of characters is the order of the bytes. */
  lemma {:induction false} OrderOfBytes(s: string, t: string)
    ensures BytesLeq(Encode(s), Encode(t)) <==> StrLeq(s, t)
  {
    if s != [] && t != [] {
      if s[0] == t[0] {
        CommonBytes(EncodeChar(s[0]), Encode(s[1..]), Encode(t[1..]));
        OrderOfBytes(s[1..], t[1..]);
      } else {
        var u, v := EncodeChar(s[0]), EncodeChar(t[0]);
        var i: nat;
        if s[0] < t[0] {
          i := ScalarsDiffer(s[0] as int, t[0] as int);
        } else {
          i := ScalarsDiffer(t[0] as int, s[0] as int);
        }
        StartsAs(u, Encode(s[1..]), i);
        StartsAs(v, Encode(t[1..]), i);
        FirstByteDecides(Encode(s), Encode(t), i);
      }
    }
  }

  lemma {:induction false} StartsAs(a: Bytes, b: Bytes, i: nat)
    requires i < |a|
    ensures (a + b)[..i] == a[..i] && (a + b)[i] == a[i]
  {
  }
}

/** The lossy fields of the layout: hash, extraction method and command name (crates/termlm-indexer/src/store.rs). */
module Codecs {
  import opened Wrappers
  import opened Text
  import opened Utf8

  // ---------- the extraction method ----------

  function MethodName(code: byte): string {
    match code
    case 1 => "man"
    case 2 => "--help"
    case 3 => "-h"
    case 4 => "stub"
    case 5 => "heuristic"
    case 6 => "builtin"
    case 7 => "alias"
    case 8 => "function"
    case _ => "unknown"
  }

  function MethodCode(name: string): byte {
    if name == "man" then 1
    else if name == "--help" then 2
    else if name == "-h" then 3
    else if name == "stub" then 4
    else if name == "heuristic" then 5
    else if name == "builtin" then 6
    else if name == "alias" then 7
    else if name == "function" then 8
    else 0
  }

  /** A method survives exactly when it is the name of some code. */
  lemma {:induction false} MethodRoundTrip(name: string)
    ensures MethodName(MethodCode(name)) == name <==> exists code: byte :: MethodName(code) == name
  {
    forall code: byte ensures MethodName(MethodCode(MethodName(code))) == MethodName(code) { CodeRoundTrip(code); }
  }

  lemma {:induction false} CodeRoundTrip(code: byte)
    ensures MethodCode(MethodName(code)) == if code <= 8 then code else 0
  {
    var names := ["unknown", "man", "--help", "-h", "stub", "heuristic", "builtin", "alias", "function"];
    assert MethodName(code) == names[if code <= 8 then code else 0];
    assert |names[1]| == 3 && |names[2]| == 6 && |names[3]| == 2 && |names[4]| == 4 && |names[5]| == 9 &&
      |names[6]| == 7 && |names[7]| == 5
           && |names[8]| == 8 && |names[0]| == 7 && names[0][0] == 'u' && names[6][0] == 'b';
  }

  // ---------- the document hash ----------

  function HexDigit(b: byte): Option<byte> {
    if 48 <= b <= 57 then Some(b - 48)
    else if 97 <= b <= 102 then Some(b - 87)
    else if 65 <= b <= 70 then Some(b - 55)
    else None
  }

  /** `u8::from_str_radix(_, 16).unwrap_or(0)` on two bytes: a leading plus sign is allowed. */
  function HexPair(a: byte, b: byte): byte {
    match (HexDigit(a), HexDigit(b))
    case (Some(x), Some(y)) => x * 16 + y
    case (None, Some(y)) => if a == 43 then y else 0
    case _ => 0
  }

  /** `str::is_char_boundary`. */
  predicate IsBoundary(b: Bytes, i: nat) {
    i == |b| || (i < |b| && !(0x80 <= b[i] < 0xC0))
  }

  /** The first `n` bytes of a hash; none when a pair of digits would cut a character, where the program panics. */
  function Digits(t: Bytes, n: nat): (r: Option<Bytes>)
    requires |t| >= 2 * n
    ensures r.Some? ==> |r.value| == n
  {
    if n == 0 then Some([]) else
      match Digits(t, n - 1)
      case None => None
      case Some(before) =>
        if IsBoundary(t, 2 * n - 2) && IsBoundary(t, 2 * n) then Some(before + [HexPair(t[2 * n - 2], t[2 * n - 1])])
          else None
  }

  function Zeros(n: nat): (b: Bytes)
    ensures |b| == n && forall i :: 0 <= i < n ==> b[i] == 0
  {
    seq(n, i => 0)
  }

  function HashBytes(hash: string): (r: Option<Bytes>)
    ensures r.Some? ==> |r.value| == 32
  {
    var t := Encode(Trim(hash));
    if |t| < 64 then Some(Zeros(32)) else Digits(t, 32)
  }

  method DecodeDocHash(hash: string) returns (r: Option<Bytes>)
    ensures r == HashBytes(hash)
  {
    var t := Encode(Trim(hash));
    if |t| < 64 {
      return Some(Zeros(32));
    }
    var out: Bytes := [];
    for i := 0 to 32
      invariant Digits(t, i) == Some(out)
    {
      if !IsBoundary(t, 2 * i) || !IsBoundary(t, 2 * i + 2) {
        NoDigits(t, i + 1, 32);
        return None;
      }
      out := out + [HexPair(t[2 * i], t[2 * i + 1])];
    }
    r := Some(out);
  }

  lemma {:induction false} NoDigits(t: Bytes, i: nat, n: nat)
    requires i <= n && |t| >= 2 * n && Digits(t, i) == None
    ensures Digits(t, n) == None
    decreases n
  {
    if i < n { NoDigits(t, i, n - 1); }
  }

  function HexChar(x: nat): char
    requires x < 16
  {
    if x < 10 then '0' + x as char else 'a' + (x - 10) as char
  }

  function HexText(b: Bytes): (s: string)
    ensures |s| == 2 * |b|
    ensures forall i :: 0 <= i < |b| ==> s[2 * i] == HexChar(b[i] / 16) && s[2 * i + 1] == HexChar(b[i] % 16)
  {
    if b == [] then "" else HexText(b[..|b| - 1]) + [HexChar(b[|b| - 1] / 16), HexChar(b[|b| - 1] % 16)]
  }

  predicate AllZero(b: Bytes) { forall i :: 0 <= i < |b| ==> b[i] == 0 }

  /** Lowercase digits, or nothing for a hash that is all zero. */
  function HashText(b: Bytes): string {
    if AllZero(b) then "" else HexText(b)
  }

  predicate IsLowerHex(c: char) { '0' <= c <= '9' || 'a' <= c <= 'f' }

  /** 64 lowercase digits that are not all zero. */
  predicate IsHash(s: string) {
    |s| == 64 && (forall i :: 0 <= i < 64 ==> IsLowerHex(s[i])) && exists i :: 0 <= i < 64 && s[i] != '0'
  }

  function HexValue(c: char): byte
    requires IsLowerHex(c)
  {
    if c <= '9' then c as int - 48 else c as int - 87
  }

  lemma {:induction false} HexCharIsLower(x: nat)
    requires x < 16
    ensures IsLowerHex(HexChar(x)) && HexValue(HexChar(x)) == x && (x == 0 <==> HexChar(x) == '0')
  {
  }

  lemma {:induction false} TextIsHash(b: Bytes)
    requires |b| == 32 && !AllZero(b)
    ensures IsHash(HashText(b))
  {
    var s := HexText(b);
    forall i | 0 <= i < 64 ensures IsLowerHex(s[i]) {
      HexCharIsLower(b[i / 2] / 16);
      HexCharIsLower(b[i / 2] % 16);
      assert i == 2 * (i / 2) || i == 2 * (i / 2) + 1;
    }
    var k :| 0 <= k < 32 && b[k] != 0;
    HexCharIsLower(b[k] / 16);
    HexCharIsLower(b[k] % 16);
    assert s[2 * k] != '0' || s[2 * k + 1] != '0';
  }

  lemma {:induction false} AsciiBytes(s: string)
    requires forall i :: 0 <= i < |s| ==> s[i] as int < 0x80
    ensures |Encode(s)| == |s| && forall i :: 0 <= i < |s| ==> Encode(s)[i] == s[i] as int
  {
    if s != [] {
      AsciiBytes(s[1..]);
      assert EncodeChar(s[0]) == [s[0] as int];
    }
  }

  lemma {:induction false} HexIsAscii(c: char)
    requires IsLowerHex(c)
    ensures c as int < 0x80 && !IsSpace(c) && HexDigit(c as int) == Some(HexValue(c))
  {
  }

  lemma {:induction false} DigitsOfHash(s: string, t: Bytes, n: nat)
    requires |s| == 64 && (forall i :: 0 <= i < 64 ==> IsLowerHex(s[i])) && n <= 32
    requires |t| == 64 && forall i :: 0 <= i < 64 ==> t[i] == s[i] as int
    ensures Digits(t, n).Some? && |Digits(t, n).value| == n && HexText(Digits(t, n).value) == s[..2 * n]
  {
    if n > 0 {
      DigitsOfHash(s, t, n - 1);
      NextPair(s, t, n, Digits(t, n - 1).value);
    }
  }

  lemma {:induction false} NextPair(s: string, t: Bytes, n: nat, before: Bytes)
    requires |s| == 64 && (forall i :: 0 <= i < 64 ==> IsLowerHex(s[i])) && 0 < n <= 32
    requires |t| == 64 && forall i :: 0 <= i < 64 ==> t[i] == s[i] as int
    requires Digits(t, n - 1) == Some(before) && HexText(before) == s[..2 * n - 2]
    ensures Digits(t, n).Some? && HexText(Digits(t, n).value) == s[..2 * n]
  {
    var last := HexPair(t[2 * n - 2], t[2 * n - 1]);
    HexIsAscii(s[2 * n - 2]);
    if n < 32 { HexIsAscii(s[2 * n]); }
    PairOfChars(s[2 * n - 2], s[2 * n - 1]);
    DigitsNext(t, n, before);
    HexTextMore(before, last);
    TwoMore(s, 2 * n);
  }

  lemma {:induction false} TwoMore(s: string, n: nat)
    requires 2 <= n <= |s|
    ensures s[..n] == s[..n - 2] + [s[n - 2], s[n - 1]]
  {
  }

  lemma {:induction false} DigitsNext(t: Bytes, n: nat, before: Bytes)
    requires 0 < n && |t| >= 2 * n && Digits(t, n - 1) == Some(before)
    requires IsBoundary(t, 2 * n - 2) && IsBoundary(t, 2 * n)
    ensures Digits(t, n) == Some(before + [HexPair(t[2 * n - 2], t[2 * n - 1])])
  {
  }

  lemma {:induction false} PairOfChars(a: char, b: char)
    requires IsLowerHex(a) && IsLowerHex(b)
    ensures a as int < 0x80 && b as int < 0x80
    ensures var pair := HexPair(a as int, b as int); HexChar(pair / 16) == a && HexChar(pair % 16) == b
  {
    HexIsAscii(a);
    HexIsAscii(b);
    var pair := HexPair(a as int, b as int);
    assert pair == HexValue(a) * 16 + HexValue(b);
    assert pair / 16 == HexValue(a) && pair % 16 == HexValue(b);
  }

  lemma {:induction false} HexTextMore(before: Bytes, last: byte)
    ensures HexText(before + [last]) == HexText(before) + [HexChar(last / 16), HexChar(last % 16)]
  {
    var b := before + [last];
    assert b[..|b| - 1] == before;
  }

  lemma {:induction false} CutDigits(t: Bytes, n: nat)
    requires |t| >= 2 * n && n > 0
    ensures Digits(t, n) == None <==> exists k: nat :: k <= n && !IsBoundary(t, 2 * k)
  {
    if n == 1 {
      assert Digits(t, 0) == Some([]);
      CutPair(t, n);
    } else {
      CutDigits(t, n - 1);
      CutPair(t, n);
    }
  }

  /** One pair more looks at its two ends. */
  lemma {:induction false} CutPair(t: Bytes, n: nat)
    requires |t| >= 2 * n && n > 0
    ensures Digits(t, n) == None <==> Digits(t, n - 1) == None || !IsBoundary(t, 2 * (n - 1)) || !IsBoundary(t, 2 * n)
  {
    assert 2 * (n - 1) == 2 * n - 2;
  }

  /**
   * Reading a hash panics exactly when it has 64 bytes or more and one of the first 32 pairs of bytes cuts a character.
   */
  lemma {:induction false} HashPanics(hash: string)
    ensures var t := Encode(Trim(hash));
      HashBytes(hash) == None <==> |t| >= 64 && exists k: nat :: k <= 32 && !IsBoundary(t, 2 * k)
  {
    var t := Encode(Trim(hash));
    if |t| >= 64 { CutDigits(t, 32); }
  }

  /** An accented hash that does: after one letter, every pair of bytes lies across two characters. */
  lemma {:induction false} AccentedHashPanics(hash: string)
    requires |hash| == 64 && hash[0] == 'a' && forall i :: 0 < i < 64 ==> hash[i] == '\U{00E9}'
    ensures HashBytes(hash) == None
  {
    TrimKeeps(hash);
    var t := Encode(hash);
    var rest := hash[1..];
    assert rest[0] == '\U{00E9}';
    assert t == EncodeChar('a') + Encode(rest) && Encode(rest) == EncodeChar('\U{00E9}') + Encode(rest[1..]);
    assert EncodeChar('a') == [0x61] && EncodeChar('\U{00E9}') == [0xC3, 0xA9];
    assert t[2] == 0xA9 && !IsBoundary(t, 2 * 1);
    HashPanics(hash);
  }

  /** What is stored and read back for a hash. */
  function HashBack(hash: string): string {
    match HashBytes(hash) case Some(b) => HashText(b) case None => ""
  }

  /** A hash survives exactly when it is empty or 64 lowercase digits that are not all zero. */
  lemma {:induction false} HashRoundTrip(hash: string)
    ensures HashBack(hash) == hash <==> hash == "" || IsHash(hash)
  {
    if hash == "" {
      assert Trim(hash) == "";
    } else if IsHash(hash) {
      var t := Encode(hash);
      forall i | 0 <= i < 64 ensures hash[i] as int < 0x80 { HexIsAscii(hash[i]); }
      AsciiBytes(hash);
      HexIsAscii(hash[0]);
      HexIsAscii(hash[63]);
      TrimKeeps(hash);
      DigitsOfHash(hash, t, 32);
      assert hash[..64] == hash;
      var k :| 0 <= k < 64 && hash[k] != '0';
      NotAllZero(HashBytes(hash).value, hash, k);
    } else if HashBytes(hash).Some? {
      if !AllZero(HashBytes(hash).value) { TextIsHash(HashBytes(hash).value); }
    }
  }

  lemma {:induction false} NotAllZero(b: Bytes, s: string, k: nat)
    requires HexText(b) == s && k < |s| && s[k] != '0'
    ensures !AllZero(b)
  {
    var i := k / 2;
    assert k == 2 * i || k == 2 * i + 1;
    HexCharIsLower(b[i] / 16);
    HexCharIsLower(b[i] % 16);
    assert b[i] != 0;
  }

  // ---------- the command name ----------

  /** The length of the last segment of a path. */
  function SegmentStart(path: string): (n: nat)
    ensures n <= |path|
    ensures '/' !in path[n..]
    ensures n > 0 ==> path[n - 1] == '/'
  {
    if path == "" then 0
    else if path[|path| - 1] == '/' then |path|
    else
      var n := SegmentStart(path[..|path| - 1]);
      assert path[n..] == path[..|path| - 1][n..] + [path[|path| - 1]];
      n
  }

  /**
   * `Path::file_name`: the last segment, past trailing slashes and dots; none for a root, an empty path or a parent.
   */
  function FileName(path: string): Option<string> {
    if path == "" then None else
      var n := SegmentStart(path);
      var last := path[n..];
      if last == "" then FileName(path[..n - 1])
      else if last == "." then (if n == 0 then None else FileName(path[..n - 1]))
      else if last == ".." then None
      else Some(last)
  }

  function CommandName(path: string): string {
    match FileName(path)
    case Some(name) => name
    case None => path
  }

  /** A path that ends in a proper file name is known by it. */
  lemma {:induction false} NameOfJoined(dir: string, name: string)
    requires name != "" && '/' !in name && name != "." && name != ".."
    requires dir == "" || dir[|dir| - 1] == '/'
    ensures CommandName(dir + name) == name
  {
    SegmentOfJoined(dir, name);
    assert (dir + name)[|dir|..] == name;
  }

  lemma {:induction false} SegmentOfJoined(dir: string, name: string)
    requires '/' !in name && (dir == "" || dir[|dir| - 1] == '/')
    ensures SegmentStart(dir + name) == |dir|
  {
    if name == "" {
      assert dir + name == dir;
    } else {
      var path := dir + name;
      assert path[..|path| - 1] == dir + name[..|name| - 1] && path[|path| - 1] == name[|name| - 1];
      SegmentOfJoined(dir, name[..|name| - 1]);
    }
  }
}

/** The string operations of the Rust standard library that the program leans on. */
module Text {
  import opened Wrappers

  /** `char::is_whitespace`: the Unicode property White_Space. */
  predicate IsSpace(c: char) {
    var u := c as int;
    || 0x09 <= u <= 0x0D || u == 0x20 || u == 0x85 || u == 0xA0 || u == 0x1680
    || 0x2000 <= u <= 0x200A || u == 0x2028 || u == 0x2029 || u == 0x202F || u == 0x205F || u == 0x3000
  }

  /** `str::to_ascii_lowercase` on one character. */
  function LowerChar(c: char): char {
    if 'A' <= c <= 'Z' then (c as int + 32) as char else c
  }

  function Lower(s: string): (r: string)
    ensures |r| == |s| && forall i :: 0 <= i < |s| ==> r[i] == LowerChar(s[i])
  {
    seq(|s|, i requires 0 <= i < |s| => LowerChar(s[i]))
  }

  // ---------- substrings ----------

  predicate OccursAt(hay: string, needle: string, i: nat) {
    i + |needle| <= |hay| && hay[i..i + |needle|] == needle
  }

  /** `str::find`: the leftmost occurrence. */
  function Find(hay: string, needle: string): (r: Option<nat>)
    ensures r.Some? ==> r.value + |needle| <= |hay|
  {
    if needle <= hay then Some(0)
    else if hay == [] then None
    else
      match Find(hay[1..], needle)
      case Some(i) => Some(i + 1)
      case None => None
  }

  lemma {:induction false} FindIsLeftmost(hay: string, needle: string)
    ensures match Find(hay, needle)
      case Some(i) => OccursAt(hay, needle, i) && forall j :: 0 <= j < i ==> !OccursAt(hay, needle, j)
      case None => forall j :: 0 <= j ==> !OccursAt(hay, needle, j)
  {
    if !(needle <= hay) && hay != [] {
      FindIsLeftmost(hay[1..], needle);
      LeftmostLater(hay, needle, Find(hay[1..], needle));
    }
  }

  /** The leftmost occurrence, or that there is none. */
  ghost predicate IsLeftmost(hay: string, needle: string, r: Option<nat>) {
    match r
    case Some(i) => OccursAt(hay, needle, i) && forall j :: 0 <= j < i ==> !OccursAt(hay, needle, j)
    case None => forall j :: 0 <= j ==> !OccursAt(hay, needle, j)
  }

  lemma {:induction false} LeftmostLater(hay: string, needle: string, r: Option<nat>)
    requires hay != [] && !(needle <= hay) && IsLeftmost(hay[1..], needle, r)
    ensures IsLeftmost(hay, needle, match r case Some(i) => Some(i + 1) case None => None)
  {
    Shifted(hay, needle);
    forall j | 0 <= j && (r.Some? ==> j < r.value + 1) ensures !OccursAt(hay, needle, j) {
      if j > 0 { assert !OccursAt(hay[1..], needle, j - 1); }
    }
  }

  lemma {:induction false} FoundAt(hay: string, needle: string, i: nat)
    requires OccursAt(hay, needle, i) && forall j :: 0 <= j < i ==> !OccursAt(hay, needle, j)
    ensures Find(hay, needle) == Some(i)
  {
    FindIsLeftmost(hay, needle);
  }

  lemma {:induction false} Shifted(hay: string, needle: string)
    requires hay != []
    ensures forall j {:trigger OccursAt(hay, needle, j)} :: 1 <= j ==>
      (OccursAt(hay, needle, j) <==> OccursAt(hay[1..], needle, j - 1))
  {
    forall j | 1 <= j ensures OccursAt(hay, needle, j) <==> OccursAt(hay[1..], needle, j - 1) {
      if j + |needle| <= |hay| {
        assert hay[1..][j - 1..j - 1 + |needle|] == hay[j..j + |needle|];
      }
    }
  }

  // ---------- trimming ----------

  function TrimStart(s: string): string {
    if s != [] && IsSpace(s[0]) then TrimStart(s[1..]) else s
  }

  function TrimEnd(s: string): string {
    if s != [] && IsSpace(s[|s| - 1]) then TrimEnd(s[..|s| - 1]) else s
  }

  /** `str::trim`. */
  function Trim(s: string): string { TrimEnd(TrimStart(s)) }

  /** `trim().is_empty()`. */
  predicate IsBlank(s: string) {
    forall i :: 0 <= i < |s| ==> IsSpace(s[i])
  }

  lemma {:induction false} NotBlankBefore(s: string, t: string)
    requires !IsBlank(s)
    ensures !IsBlank(s + t)
  {
    var i :| 0 <= i < |s| && !IsSpace(s[i]);
    assert (s + t)[i] == s[i];
  }

  lemma {:induction false} NotBlankAfter(s: string, t: string)
    requires !IsBlank(t)
    ensures !IsBlank(s + t)
  {
    var i :| 0 <= i < |t| && !IsSpace(t[i]);
    assert (s + t)[|s| + i] == t[i];
  }

  lemma {:induction false} TrimStartLeaves(s: string)
    ensures var r := TrimStart(s);
      |r| <= |s| && s[|s| - |r|..] == r && IsBlank(s[..|s| - |r|]) && (r != [] ==> !IsSpace(r[0]))
  {
    if s != [] && IsSpace(s[0]) {
      TrimStartLeaves(s[1..]);
      var r := TrimStart(s);
      assert s[1..][|s| - 1 - |r|..] == s[|s| - |r|..];
      assert forall i :: 0 < i < |s| - |r| ==> s[i] == s[1..][..|s| - 1 - |r|][i - 1];
    }
  }

  lemma {:induction false} TrimEndLeaves(s: string)
    ensures var r := TrimEnd(s);
      |r| <= |s| && s[..|r|] == r && IsBlank(s[|r|..]) && (r != [] ==> !IsSpace(r[|r| - 1]))
  {
    if s != [] && IsSpace(s[|s| - 1]) {
      var t, r := s[..|s| - 1], TrimEnd(s);
      TrimEndLeaves(t);
      assert s[|r|..] == t[|r|..] + [s[|s| - 1]];
    }
  }

  /** Trimming takes whitespace off both ends, and all of it. */
  lemma {:induction false} TrimSplits(s: string) returns (before: string, after: string)
    ensures s == before + Trim(s) + after && IsBlank(before) && IsBlank(after)
    ensures Trim(s) != [] ==> !IsSpace(Trim(s)[0]) && !IsSpace(Trim(s)[|Trim(s)| - 1])
    ensures Trim(s) == [] <==> IsBlank(s)
  {
    var t := TrimStart(s);
    TrimStartLeaves(s);
    TrimEndLeaves(t);
    before, after := s[..|s| - |t|], t[|Trim(s)|..];
  }

  lemma {:induction false} TrimKeeps(s: string)
    requires s == [] || (!IsSpace(s[0]) && !IsSpace(s[|s| - 1]))
    ensures Trim(s) == s
  {
  }

  lemma {:induction false} TrimEndTwice(s: string)
    ensures TrimEnd(TrimEnd(s)) == TrimEnd(s)
  {
    TrimEndLeaves(s);
  }

  lemma {:induction false} TrimTwice(s: string)
    ensures Trim(Trim(s)) == Trim(s)
  {
    var before, after := TrimSplits(s);
    if Trim(s) != [] { TrimKeeps(Trim(s)); }
  }

  lemma {:induction false} TrimEndBlank(s: string, t: string)
    requires IsBlank(t)
    ensures TrimEnd(s + t) == TrimEnd(s)
    decreases |t|
  {
    if t == [] {
      assert s + t == s;
    } else {
      var t' := t[..|t| - 1];
      assert (s + t)[..|s + t| - 1] == s + t' && IsSpace((s + t)[|s + t| - 1]);
      TrimEndBlank(s, t');
    }
  }

  lemma {:induction false} TrimEndLater(s: string, t: string)
    requires !IsBlank(t)
    ensures TrimEnd(s + t) == s + TrimEnd(t)
    decreases |t|
  {
    if IsSpace(t[|t| - 1]) {
      var t' := t[..|t| - 1];
      assert (s + t)[..|s + t| - 1] == s + t';
      TrimEndLater(s, t');
    }
  }

  lemma {:induction false} TrimStartBlank(s: string, t: string)
    requires IsBlank(s)
    ensures TrimStart(s + t) == TrimStart(t)
    decreases |s|
  {
    if s == [] {
      assert s + t == t;
    } else {
      assert (s + t)[1..] == s[1..] + t;
      TrimStartBlank(s[1..], t);
    }
  }

  lemma {:induction false} TrimStartEarlier(s: string, t: string)
    requires !IsBlank(s)
    ensures TrimStart(s + t) == TrimStart(s) + t
    decreases |s|
  {
    if IsSpace(s[0]) {
      assert (s + t)[1..] == s[1..] + t;
      TrimStartEarlier(s[1..], t);
    }
  }

  // ---------- lines ----------

  function NewlineAt(s: string): (r: Option<nat>)
    ensures r.Some? ==> r.value < |s| && s[r.value] == '\n' && forall i :: 0 <= i < r.value ==> s[i] != '\n'
    ensures r == None ==> forall i :: 0 <= i < |s| ==> s[i] != '\n'
  {
    if s == [] then None
    else if s[0] == '\n' then Some(0)
    else match NewlineAt(s[1..])
      case None => assert forall i :: 1 <= i < |s| ==> s[i] == s[1..][i - 1]; None
      case Some(i) => assert forall j :: 1 <= j <= i + 1 ==> s[j] == s[1..][j - 1]; Some(i + 1)
  }

  predicate EndsInReturn(s: string) { s != [] && s[|s| - 1] == '\r' }

  function StripReturn(s: string): string {
    if EndsInReturn(s) then s[..|s| - 1] else s
  }

  /** `str::lines`: a line ends at a newline, and one carriage return before the newline belongs to the end. */
  function Lines(s: string): seq<string>
    decreases |s|
  {
    if s == [] then [] else
      match NewlineAt(s)
      case None => [s]
      case Some(i) => [StripReturn(s[..i])] + Lines(s[i + 1..])
  }

  // ---------- ink ----------

  /** A text without its whitespace. */
  function Ink(s: string): string {
    if s == [] then [] else (if IsSpace(s[0]) then [] else [s[0]]) + Ink(s[1..])
  }

  lemma {:induction false} InkConcat(s: string, t: string)
    ensures Ink(s + t) == Ink(s) + Ink(t)
  {
    if s == [] {
      assert s + t == t;
    } else {
      assert (s + t)[1..] == s[1..] + t;
      InkConcat(s[1..], t);
    }
  }

  lemma {:induction false} BlankHasNoInk(s: string)
    ensures Ink(s) == [] <==> IsBlank(s)
  {
    if s != [] {
      BlankHasNoInk(s[1..]);
      assert forall i :: 1 <= i < |s| ==> s[i] == s[1..][i - 1];
    }
  }

  lemma {:induction false} TrimKeepsInk(s: string)
    ensures Ink(Trim(s)) == Ink(s)
  {
    var before, after := TrimSplits(s);
    InkConcat(before + Trim(s), after);
    InkConcat(before, Trim(s));
    BlankHasNoInk(before);
    BlankHasNoInk(after);
  }
}

/**
 * What the blocks and the candidate of a model's output are, by where tags, fences and braces stand in it
 * (crates/termlm-inference/src/tool_parser.rs).
 */
module ToolCalls {
  import opened Wrappers
  import opened Text
  import opened ToolTags

  // ---------- what is taken out first ----------

  /** Control characters go, but for line ends and tabs; nothing else is touched. */
  lemma {:induction false} SanitizeMeans(s: string, t: string, c: char)
    ensures Sanitize(s + t) == Sanitize(s) + Sanitize(t)
    ensures Sanitize([c]) ==
      if (c as int < 32 || 127 <= c as int <= 159) && c != '\n' && c != '\r' && c != '\t' then [] else [c]
  {
    assert [c][1..] == [];
    if s == [] {
      assert s + t == t;
    } else {
      assert (s + t)[1..] == s[1..] + t;
      SanitizeMeans(s[1..], t, c);
    }
  }

  /** The blocks are decoded one by one; one that does not decode is passed over. */
  lemma {:induction false} DecodedMeans<Call>(decode: string -> Option<Call>, a: seq<string>, b: seq<string>,
      block: string)
    ensures Decoded(decode, a + b) == Decoded(decode, a) + Decoded(decode, b)
    ensures Decoded(decode, [block]) == match decode(block) case Some(c) => [c] case None => []
  {
    assert [block][1..] == [];
    if a == [] {
      assert a + b == b;
    } else {
      assert (a + b)[1..] == a[1..] + b;
      DecodedMeans(decode, a[1..], b, block);
    }
  }

  // ---------- blocks ----------

  ghost predicate OccursNowhere(hay: string, needle: string) {
    forall j: nat :: !OccursAt(hay, needle, j)
  }

  ghost predicate OccursFirst(hay: string, needle: string, i: nat) {
    OccursAt(hay, needle, i) && forall j: nat :: j < i ==> !OccursAt(hay, needle, j)
  }

  /**
   * No start tag of the first `n` pairs stands before `at`; the one of pair `k` stands there, and of no earlier pair.
   */
  ghost predicate IsFirstTag(tags: seq<Pair>, n: nat, text: string, at: nat, k: nat) {
    && k < n <= |tags| && OccursAt(text, tags[k].start, at)
    && (forall i, j: nat :: 0 <= i < n && j < at ==> !OccursAt(text, tags[i].start, j))
    && (forall i :: 0 <= i < k ==> !OccursAt(text, tags[i].start, at))
  }

  lemma {:induction false} BestTagMeans(tags: seq<Pair>, text: string, n: nat) returns (k: nat)
    requires n <= |tags|
    ensures match BestTag(tags, text, n)
      case None => forall i :: 0 <= i < n ==> OccursNowhere(text, tags[i].start)
      case Some(best) => IsFirstTag(tags, n, text, best.at, k) && best.pair == tags[k]
  {
    k := 0;
    if n > 0 {
      var m := n - 1;
      k := BestTagMeans(tags, text, m);
      FindIsLeftmost(text, tags[m].start);
      var found := Find(text, tags[m].start);
      if found.Some? && (BestTag(tags, text, m) == None || found.value < BestTag(tags, text, m).value.at) {
        k := m;
      }
    }
  }

  /**
   * What stands between the first start tag and the end tag that goes with it, or without one a balanced `call:` block.
   */
  ghost predicate IsNextBlock(tags: seq<Pair>, rest: string, block: string, left: string) {
    exists at: nat, k: nat :: IsBlockAt(tags, rest, at, k, block, left)
  }

  ghost predicate IsBlockAt(tags: seq<Pair>, rest: string, at: nat, k: nat, block: string, left: string) {
    IsFirstTag(tags, |tags|, rest, at, k) && IsBlockAfter(rest[at + |tags[k].start|..], tags[k].end, block, left)
  }

  ghost predicate IsBlockAfter(after: string, end: string, block: string, left: string) {
    || (OccursFirst(after, end, |block|) && block <= after && left == after[|block| + |end|..])
    || (OccursNowhere(after, end) && exists consumed: nat ::
          BalancedCallBlock(after) == Some(Taken(block, consumed)) && consumed <= |after| && left == after[consumed..])
  }

  ghost predicate HasNoBlock(tags: seq<Pair>, rest: string) {
    || (forall i :: 0 <= i < |tags| ==> OccursNowhere(rest, tags[i].start))
    || exists at: nat, k: nat :: IsOpenAt(tags, rest, at, k)
  }

  /** The first start tag has no end tag after it, nor a balanced block. */
  ghost predicate IsOpenAt(tags: seq<Pair>, rest: string, at: nat, k: nat) {
    IsFirstTag(tags, |tags|, rest, at, k) && HasNoBlockAfter(rest[at + |tags[k].start|..], tags[k].end)
  }

  ghost predicate HasNoBlockAfter(after: string, end: string) {
    OccursNowhere(after, end) && BalancedCallBlock(after) == None
  }

  /** The blocks from here on: each is the next one of what is left after those before it. */
  ghost predicate AreBlocks(tags: seq<Pair>, rest: string, blocks: seq<string>)
    decreases |blocks|
  {
    if blocks == [] then HasNoBlock(tags, rest)
    else exists left :: IsNextBlock(tags, rest, blocks[0], left) && AreBlocks(tags, left, blocks[1..])
  }

  lemma {:induction false} NextBlockMeans(tags: seq<Pair>, rest: string)
    requires Usable(tags)
    ensures match NextBlock(tags, rest)
      case Some((block, left)) => IsNextBlock(tags, rest, block, left)
      case None => HasNoBlock(tags, rest)
  {
    match BestTag(tags, rest, |tags|)
    case None => var k := BestTagMeans(tags, rest, |tags|);
    case Some(TagBounds(at, pair)) =>
      var after := rest[at + |pair.start|..];
      BlockBeforeMeans(after, pair.end);
      BlockAtTag(tags, rest, at, pair, after, BlockBefore(after, pair.end));
  }

  lemma {:induction false} BlockAtTag(tags: seq<Pair>, rest: string, at: nat, pair: Pair, after: string,
      r: Option<(string, string)>)
    requires BestTag(tags, rest, |tags|) == Some(TagBounds(at, pair)) && at + |pair.start| <= |rest|
    requires after == rest[at + |pair.start|..]
    requires match r
      case Some((block, left)) => IsBlockAfter(after, pair.end, block, left)
      case None => HasNoBlockAfter(after, pair.end)
    ensures match r
      case Some((block, left)) => IsNextBlock(tags, rest, block, left)
      case None => HasNoBlock(tags, rest)
  {
    var k := BestTagMeans(tags, rest, |tags|);
    match r
    case Some((block, left)) => BlockStands(tags, rest, at, k, after, block, left);
    case None => NoBlockStands(tags, rest, at, k, after);
  }

  lemma {:induction false} BlockStands(tags: seq<Pair>, rest: string, at: nat, k: nat, after: string, block: string,
      left: string)
    requires IsFirstTag(tags, |tags|, rest, at, k) && after == rest[at + |tags[k].start|..]
    requires IsBlockAfter(after, tags[k].end, block, left)
    ensures IsNextBlock(tags, rest, block, left)
  {
    assert IsBlockAt(tags, rest, at, k, block, left);
  }

  lemma {:induction false} NoBlockStands(tags: seq<Pair>, rest: string, at: nat, k: nat, after: string)
    requires IsFirstTag(tags, |tags|, rest, at, k) && after == rest[at + |tags[k].start|..]
    requires HasNoBlockAfter(after, tags[k].end)
    ensures HasNoBlock(tags, rest)
  {
    assert IsOpenAt(tags, rest, at, k);
  }

  lemma {:induction false} BlockBeforeMeans(after: string, end: string)
    ensures match BlockBefore(after, end)
      case Some((block, left)) => IsBlockAfter(after, end, block, left)
      case None => HasNoBlockAfter(after, end)
  {
    FindIsLeftmost(after, end);
  }

  /** What the parser decodes are exactly the blocks of the text, from left to right. */
  lemma {:induction false} BlocksMean(tags: seq<Pair>, rest: string)
    requires Usable(tags)
    ensures AreBlocks(tags, rest, Blocks(tags, rest))
    decreases |rest|
  {
    NextBlockMeans(tags, rest);
    if NextBlock(tags, rest).Some? {
      var (block, left) := NextBlock(tags, rest).value;
      BlocksMean(tags, left);
      assert Blocks(tags, rest)[1..] == Blocks(tags, left);
    }
  }

  /** The fallback takes nothing but text that begins with `call:`, after whitespace, and has a brace. */
  lemma {:induction false} FallbackNeedsCall(input: string)
    ensures var r, block := BalancedCallBlock(input), TrimStart(input);
      && (r.Some? ==> OccursAt(block, "call:", 0) && !OccursNowhere(block, "{"))
      && (r.Some? ==> r.value.block <= block && r.value.consumed == |input| - |block| + |r.value.block|)
  {
    FindIsLeftmost(TrimStart(input), "{");
    TrimStartLeaves(input);
  }

  // ---------- the candidate ----------

  /** The stretch between the first two fences. */
  ghost predicate IsFenced(text: string, start: nat, inside: string) {
    && OccursFirst(text, "```", start) && inside <= text[start + 3..]
    && OccursFirst(text[start + 3..], "```", |inside|)
  }

  /** What a fenced stretch says: without a `json` in front, and without outer whitespace. */
  ghost predicate IsBodyOf(inside: string, body: string) {
    if OccursAt(inside, "json", 0) then body == Trim(inside[4..]) else body == Trim(inside)
  }

  /** The whole text, if it is braced; else what the first fence says, if that is; else the first object that closes. */
  ghost predicate IsCandidate(text: string, r: Option<string>) {
    if IsBraced(text) then r == Some(text)
    else if exists start: nat, inside, body :: IsFenced(text, start, inside) && IsBodyOf(inside, body) && IsBraced(body)
    then r.Some? && exists start: nat, inside :: IsFenced(text, start, inside) && IsBodyOf(inside, r.value)
    else IsFirstObject(text, r)
  }

  /** From the first opening brace to where the braces balance; nothing when there is no brace or they never do. */
  ghost predicate IsFirstObject(text: string, r: Option<string>) {
    match r
    case Some(x) => exists from: nat :: IsObjectAt(text, from, x)
    case None => OccursNowhere(text, "{") || exists from: nat :: IsOpenFrom(text, from)
  }

  ghost predicate IsObjectAt(text: string, from: nat, x: string) {
    OccursFirst(text, "{", from) && OccursAt(text, x, from) && ClosesFirst(text, from, from + |x|)
  }

  ghost predicate IsOpenFrom(text: string, from: nat) {
    OccursFirst(text, "{", from) && StaysOpen(text, from, |text|)
  }

  lemma {:induction false} FirstObjectMeans(text: string)
    ensures IsFirstObject(text, FirstObject(text))
  {
    FirstObjectCloses(text);
    FindIsLeftmost(text, "{");
    match (Find(text, "{"), FirstObject(text))
    case (Some(from), Some(x)) => assert IsObjectAt(text, from, x);
    case (Some(from), None) => assert IsOpenFrom(text, from);
    case (None, _) =>
  }

  lemma {:induction false} FenceContentMeans(text: string)
    ensures match FenceContent(text)
      case Some(inside) => exists start: nat :: IsFenced(text, start, inside)
      case None => forall start: nat, inside :: !IsFenced(text, start, inside)
  {
    FindIsLeftmost(text, "```");
    var start := Find(text, "```");
    if start.Some? {
      var rest := text[start.value + 3..];
      FindIsLeftmost(rest, "```");
      if Find(rest, "```").Some? { assert IsFenced(text, start.value, rest[..Find(rest, "```").value]); }
      forall other: nat, inside | IsFenced(text, other, inside) ensures other == start.value { }
    }
  }

  lemma {:induction false} OneFence(text: string, a: nat, x: string, b: nat, y: string)
    requires IsFenced(text, a, x) && IsFenced(text, b, y)
    ensures a == b && x == y
  {
    assert a == b;
    assert |x| == |y|;
  }

  lemma {:induction false} FenceBodyMeans(inside: string)
    ensures IsBodyOf(inside, FenceBody(inside))
  {
    if "json" <= inside { TrimOfTrimStart(inside[4..]); }
    assert "json" <= inside <==> OccursAt(inside, "json", 0);
  }

  lemma {:induction false} TrimOfTrimStart(s: string)
    ensures Trim(TrimStart(s)) == Trim(s)
  {
    TrimStartLeaves(s);
    assert TrimStart(TrimStart(s)) == TrimStart(s);
  }

  lemma {:induction false} FencedObjectMeans(text: string)
    ensures match FencedObject(text)
      case Some(body) => IsBraced(body) &&
        exists start: nat, inside :: IsFenced(text, start, inside) && IsBodyOf(inside, body)
      case None => forall start: nat, inside, body :: IsFenced(text, start, inside) && IsBodyOf(inside, body) ==>
        !IsBraced(body)
  {
    FenceContentMeans(text);
    if FenceContent(text).Some? {
      var own := FenceContent(text).value;
      var at: nat :| IsFenced(text, at, own);
      FenceBodyMeans(own);
      forall start: nat, inside, body | IsFenced(text, start, inside) && IsBodyOf(inside, body)
        ensures body == FenceBody(own)
      {
        OneFence(text, start, inside, at, own);
      }
    }
  }

  /** The candidate of every input, by the three attempts in their order. */
  lemma {:induction false} CandidateMeans(input: string)
    ensures IsCandidate(Trim(input), JsonCandidate(input))
  {
    var text := Trim(input);
    FencedObjectMeans(text);
    FirstObjectMeans(text);
  }
}

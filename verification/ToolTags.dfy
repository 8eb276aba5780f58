/** Isolating tagged tool calls in model output (crates/termlm-inference/src/tool_parser.rs). */
module ToolTags {
  import opened Wrappers
  import opened Text
  import Utf8

  datatype Pair = Pair(start: string, end: string)

  const TAGS := [
    Pair("<|tool_call>", "<tool_call|>"),
    Pair("<tool_call>", "</tool_call>"),
    Pair("<|tool_call|>", "<|/tool_call|>")]

  predicate Usable(tags: seq<Pair>) {
    forall p :: p in tags ==> p.start != [] && p.end != []
  }

  datatype TagBounds = TagBounds(at: nat, pair: Pair)

  /** The leftmost start tag among the first `k` pairs; an earlier pair wins a tie. */
  function BestTag(tags: seq<Pair>, input: string, k: nat): (r: Option<TagBounds>)
    requires k <= |tags|
    ensures r.Some? ==> r.value.pair in tags && r.value.at + |r.value.pair.start| <= |input|
  {
    if k == 0 then None else Better(BestTag(tags, input, k - 1), Find(input, tags[k - 1].start), tags[k - 1])
  }

  /** What was best so far, unless the pair was found before it. */
  function Better(best: Option<TagBounds>, found: Option<nat>, pair: Pair): Option<TagBounds> {
    match (best, found)
    case (best, None) => best
    case (None, Some(i)) => Some(TagBounds(i, pair))
    case (Some(best), Some(i)) => if best.at <= i then Some(best) else Some(TagBounds(i, pair))
  }

  method FindNextTagBounds(tags: seq<Pair>, input: string) returns (best: Option<TagBounds>)
    ensures best == BestTag(tags, input, |tags|)
  {
    best := None;
    for k := 0 to |tags|
      invariant best == BestTag(tags, input, k)
    {
      var found := Find(input, tags[k].start);
      if found.Some? && !(best.Some? && best.value.at <= found.value) {
        best := Some(TagBounds(found.value, tags[k]));
      }
    }
  }

  // ---------- the fallback for a missing end tag ----------

  /** Where a brace scan from `k` at the given depth comes back to depth zero on a closing brace. */
  function BraceEnd(block: string, k: nat, depth: nat): (r: Option<nat>)
    ensures r.Some? ==> k < r.value <= |block|
    decreases |block| - k
  {
    if k >= |block| then None
    else if block[k] == '{' then BraceEnd(block, k + 1, depth + 1)
    else if block[k] == '}' then
      if depth <= 1 then Some(k + 1) else BraceEnd(block, k + 1, depth - 1)
    else BraceEnd(block, k + 1, depth)
  }

  datatype Taken = Taken(block: string, consumed: nat)

  /**
   * A `call:` block up to its matching brace. The scan skips as many characters as the first brace has
   * bytes before it, so it starts at that brace only when those bytes are one per character.
   */
  function BalancedCallBlock(input: string): (r: Option<Taken>)
    ensures r.Some? ==> 0 < r.value.consumed <= |input|
  {
    var block := TrimStart(input);
    TrimStartIsSuffix(input);
    if !("call:" <= block) then None else
      match Find(block, "{")
      case None => None
      case Some(brace) =>
        match BraceEnd(block, Utf8.Len(block[..brace]), 0)
        case None => None
        case Some(end) => Some(Taken(block[..end], |input| - |block| + end))
  }

  lemma {:induction false} TrimStartIsSuffix(s: string)
    ensures |TrimStart(s)| <= |s| && s[|s| - |TrimStart(s)|..] == TrimStart(s)
  {
    if s != [] && IsSpace(s[0]) { TrimStartIsSuffix(s[1..]); }
  }

  // ---------- the loop ----------

  /** The block in front of `end`, or failing that a balanced `call:` block, and what is left after it. */
  function BlockBefore(after: string, end: string): (r: Option<(string, string)>)
    ensures r.Some? ==> |r.value.1| <= |after|
  {
    match Find(after, end)
    case Some(at) => Some((after[..at], after[at + |end|..]))
    case None =>
      match BalancedCallBlock(after)
      case Some(taken) => Some((taken.block, after[taken.consumed..]))
      case None => None
  }

  /** The next block and what is left after it. */
  function NextBlock(tags: seq<Pair>, rest: string): (r: Option<(string, string)>)
    requires Usable(tags)
    ensures r.Some? ==> |r.value.1| < |rest|
  {
    match BestTag(tags, rest, |tags|)
    case None => None
    case Some(TagBounds(at, pair)) => BlockBefore(rest[at + |pair.start|..], pair.end)
  }

  function Blocks(tags: seq<Pair>, rest: string): seq<string>
    requires Usable(tags)
    decreases |rest|
  {
    match NextBlock(tags, rest)
    case None => []
    case Some((block, left)) => [block] + Blocks(tags, left)
  }

  predicate IsControl(c: char) { c as int < 0x20 || 0x7F <= c as int < 0xA0 }

  predicate Kept(c: char) { !IsControl(c) || c == '\n' || c == '\r' || c == '\t' }

  function Sanitize(input: string): string {
    if input == [] then [] else (if Kept(input[0]) then [input[0]] else []) + Sanitize(input[1..])
  }

  /** The calls that the blocks decode to; a block that does not decode is passed over. */
  function Decoded<Call>(decode: string -> Option<Call>, blocks: seq<string>): seq<Call> {
    if blocks == [] then [] else
      (match decode(blocks[0]) case Some(c) => [c] case None => []) + Decoded(decode, blocks[1..])
  }

  /** The first half of the loop body: find a start tag, then the block that belongs to it. */
  method TakeBlock(tags: seq<Pair>, rest: string) returns (r: Option<(string, string)>)
    requires Usable(tags)
    ensures r == None ==> Blocks(tags, rest) == []
    ensures r.Some? ==> |r.value.1| < |rest| && Blocks(tags, rest) == [r.value.0] + Blocks(tags, r.value.1)
  {
    var next := FindNextTagBounds(tags, rest);
    if next == None {
      return None;
    }
    var after := rest[next.value.at + |next.value.pair.start|..];
    var end := Find(after, next.value.pair.end);
    if end.Some? {
      assert NextBlock(tags, rest) == Some((after[..end.value], after[end.value + |next.value.pair.end|..]));
      return Some((after[..end.value], after[end.value + |next.value.pair.end|..]));
    }
    var fallback := BalancedCallBlock(after);
    if fallback.Some? {
      assert NextBlock(tags, rest) == Some((fallback.value.block, after[fallback.value.consumed..]));
      return Some((fallback.value.block, after[fallback.value.consumed..]));
    }
    return None;
  }

  method ParseTaggedToolCalls<Call>(tags: seq<Pair>, decode: string -> Option<Call>, input: string)
      returns (out: seq<Call>)
    requires Usable(tags)
    ensures out == Decoded(decode, Blocks(tags, Sanitize(input)))
  {
    out := [];
    var rest := Sanitize(input);
    ghost var all := Blocks(tags, rest);
    while true
      invariant out + Decoded(decode, Blocks(tags, rest)) == Decoded(decode, all)
      decreases |rest|
    {
      var next := TakeBlock(tags, rest);
      if next == None {
        break;
      }
      var (block, left) := next.value;
      DecodedStep(decode, out, block, Blocks(tags, left));
      rest := left;
      var call := decode(block);
      if call.Some? {
        out := out + [call.value];
      }
    }
  }

  lemma {:induction false} DecodedStep<Call>(decode: string -> Option<Call>, out: seq<Call>, block: string,
      blocks: seq<string>)
    ensures out + Decoded(decode, [block] + blocks) ==
            (match decode(block) case Some(c) => out + [c] case None => out) + Decoded(decode, blocks)
  {
    assert ([block] + blocks)[1..] == blocks;
  }

  // ---------- round trip ----------

  /** One call as a model writes it: some filler, then a block in one of the tag pairs. */
  datatype Tagged = Tagged(filler: string, pair: Pair, block: string)

  function Wrapped(x: Tagged): string {
    x.filler + x.pair.start + x.block + x.pair.end
  }

  function Written(calls: seq<Tagged>, tail: string): string {
    if calls == [] then tail else Wrapped(calls[0]) + Written(calls[1..], tail)
  }

  function BlocksOf(calls: seq<Tagged>): seq<string> {
    if calls == [] then [] else [calls[0].block] + BlocksOf(calls[1..])
  }

  predicate HasNoStartTag(tags: seq<Pair>, s: string) {
    forall p :: p in tags ==> Find(s, p.start) == None
  }

  predicate HasNoEnd(x: Tagged) {
    Find(x.block, x.pair.end) == None
  }

  /** Opened by `<`, and no other `<` inside. */
  predicate IsTag(s: string) {
    s != [] && s[0] == '<' && '<' !in s[1..]
  }

  /** No start tag can overlap another tag, and no two can stand at the same place. */
  ghost predicate Separate(tags: seq<Pair>) {
    && (forall p :: p in tags ==> IsTag(p.start) && IsTag(p.end))
    && (forall p, q :: p in tags && q in tags && p != q ==> !(p.start <= q.start))
  }

  lemma {:induction false} TagsAreSeparate()
    ensures Separate(TAGS) && Usable(TAGS)
  {
    FirstPair();
    SecondPair();
    ThirdPair();
    SeparateThree(TAGS[0], TAGS[1], TAGS[2]);
  }

  lemma {:induction false} FirstPair()
    ensures IsTag("<|tool_call>") && IsTag("<tool_call|>")
    ensures "<|tool_call>"[1] == '|' && "<|tool_call>"[11] == '>'
  {
    Opens("<|tool_call>", "|tool_call>");
    Opens("<tool_call|>", "tool_call|>");
  }

  lemma {:induction false} SecondPair()
    ensures IsTag("<tool_call>") && IsTag("</tool_call>") && "<tool_call>"[1] == 't'
  {
    Opens("<tool_call>", "tool_call>");
    Opens("</tool_call>", "/tool_call>");
  }

  lemma {:induction false} ThirdPair()
    ensures IsTag("<|tool_call|>") && IsTag("<|/tool_call|>")
    ensures "<|tool_call|>"[1] == '|' && "<|tool_call|>"[11] == '|'
  {
    Opens("<|tool_call|>", "|tool_call|>");
    Opens("<|/tool_call|>", "|/tool_call|>");
  }

  lemma {:induction false} SeparateThree(a: Pair, b: Pair, c: Pair)
    requires IsTag(a.start) && IsTag(a.end) && IsTag(b.start) && IsTag(b.end) && IsTag(c.start) && IsTag(c.end)
    requires |a.start| > 11 && |b.start| > 1 && |c.start| > 11
    requires a.start[1] != b.start[1] && c.start[1] != b.start[1] && a.start[11] != c.start[11]
    ensures Separate([a, b, c]) && Usable([a, b, c])
  {
    Differ(a.start, b.start, 1);
    Differ(a.start, c.start, 11);
    Differ(b.start, c.start, 1);
    assert forall p :: p in [a, b, c] <==> p == a || p == b || p == c;
  }

  lemma {:induction false} Opens(tag: string, rest: string)
    requires tag == ['<'] + rest && '<' !in rest
    ensures IsTag(tag)
  {
    assert tag[1..] == rest;
  }

  lemma {:induction false} Differ(a: string, b: string, k: nat)
    requires k < |a| && k < |b| && a[k] != b[k]
    ensures !(a <= b) && !(b <= a)
  {
  }

  lemma {:induction false} NoStraddle(before: string, tag: string, rest: string)
    requires IsTag(tag) && Find(before, tag) == None
    requires rest != [] && rest[0] == '<'
    ensures forall j: nat :: j < |before| ==> !OccursAt(before + rest, tag, j)
  {
    var text := before + rest;
    FindIsLeftmost(before, tag);
    forall j: nat | j < |before| ensures !OccursAt(text, tag, j) {
      if j + |tag| <= |before| {
        assert text[j..j + |tag|] == before[j..j + |tag|];
        assert !OccursAt(before, tag, j);
      } else if j + |tag| <= |text| {
        var k := |before| - j;
        assert text[j..j + |tag|][k] == rest[0] == '<';
        assert tag[k] == tag[1..][k - 1];
      }
    }
  }

  lemma {:induction false} OneTagAtAPlace(tags: seq<Pair>, s: string, p: Pair, q: Pair, i: nat)
    requires Separate(tags) && p in tags && q in tags
    requires OccursAt(s, p.start, i) && OccursAt(s, q.start, i)
    ensures p == q
  {
    OnePrefixOfOther(s, p.start, q.start, i);
  }

  lemma {:induction false} OnePrefixOfOther(s: string, a: string, b: string, i: nat)
    requires OccursAt(s, a, i) && OccursAt(s, b, i)
    ensures a <= b || b <= a
  {
    if |a| <= |b| {
      assert b[..|a|] == s[i..i + |b|][..|a|] == s[i..i + |a|];
    } else {
      assert a[..|b|] == s[i..i + |a|][..|b|] == s[i..i + |b|];
    }
  }

  lemma {:induction false} BestOccurs(tags: seq<Pair>, input: string, k: nat)
    requires k <= |tags|
    ensures BestTag(tags, input, k).Some? ==>
      var best := BestTag(tags, input, k).value; OccursAt(input, best.pair.start, best.at)
  {
    if k > 0 {
      BestOccurs(tags, input, k - 1);
      FindIsLeftmost(input, tags[k - 1].start);
    }
  }

  lemma {:induction false} BestNotBefore(tags: seq<Pair>, input: string, at: nat, k: nat)
    requires k <= |tags|
    requires forall q, j: nat :: q in tags && j < at ==> !OccursAt(input, q.start, j)
    ensures BestTag(tags, input, k).Some? ==> at <= BestTag(tags, input, k).value.at
  {
    BestOccurs(tags, input, k);
  }

  lemma {:induction false} BestIsLeftmost(tags: seq<Pair>, input: string, at: nat, p: Pair, k: nat)
    requires k <= |tags| && Separate(tags) && p in tags
    requires OccursAt(input, p.start, at)
    requires forall q, j: nat :: q in tags && j < at ==> !OccursAt(input, q.start, j)
    ensures p in tags[..k] ==> BestTag(tags, input, k) == Some(TagBounds(at, p))
  {
    if k > 0 {
      assert tags[..k] == tags[..k - 1] + [tags[k - 1]];
      if p in tags[..k - 1] {
        BestIsLeftmost(tags, input, at, p, k - 1);
        BestStays(tags, input, at, p, k);
      } else if p == tags[k - 1] {
        LastIsBest(tags, input, at, p, k);
      }
    }
  }

  lemma {:induction false} BestStays(tags: seq<Pair>, input: string, at: nat, p: Pair, k: nat)
    requires 0 < k <= |tags| && BestTag(tags, input, k - 1) == Some(TagBounds(at, p))
    requires forall q, j: nat :: q in tags && j < at ==> !OccursAt(input, q.start, j)
    ensures BestTag(tags, input, k) == Some(TagBounds(at, p))
  {
    FindIsLeftmost(input, tags[k - 1].start);
  }

  lemma {:induction false} LastIsBest(tags: seq<Pair>, input: string, at: nat, p: Pair, k: nat)
    requires 0 < k <= |tags| && Separate(tags) && p == tags[k - 1]
    requires OccursAt(input, p.start, at)
    requires forall q, j: nat :: q in tags && j < at ==> !OccursAt(input, q.start, j)
    ensures BestTag(tags, input, k) == Some(TagBounds(at, p))
  {
    FoundAt(input, p.start, at);
    BestSoFar(tags, input, at, p, k - 1, BestTag(tags, input, k - 1));
    BestNext(tags, input, k);
  }

  lemma {:induction false} BestSoFar(tags: seq<Pair>, input: string, at: nat, p: Pair, k: nat, best: Option<TagBounds>)
    requires k <= |tags| && Separate(tags) && p in tags && OccursAt(input, p.start, at) &&
      best == BestTag(tags, input, k)
    requires forall q, j: nat :: q in tags && j < at ==> !OccursAt(input, q.start, j)
    ensures Better(best, Some(at), p) == Some(TagBounds(at, p))
  {
    if best.Some? {
      BestNotBefore(tags, input, at, k);
      SamePlaceSameTag(tags, input, at, p, k);
    }
  }

  lemma {:induction false} BestNext(tags: seq<Pair>, input: string, k: nat)
    requires 0 < k <= |tags|
    ensures BestTag(tags, input, k) == Better(BestTag(tags, input, k - 1), Find(input, tags[k - 1].start), tags[k - 1])
  {
  }

  lemma {:induction false} SamePlaceSameTag(tags: seq<Pair>, input: string, at: nat, p: Pair, k: nat)
    requires k <= |tags| && Separate(tags) && p in tags && OccursAt(input, p.start, at)
    ensures BestTag(tags, input, k).Some? && BestTag(tags, input, k).value.at == at ==>
      BestTag(tags, input, k).value.pair == p
  {
    BestOccurs(tags, input, k);
    if BestTag(tags, input, k).Some? && BestTag(tags, input, k).value.at == at {
      OneTagAtAPlace(tags, input, p, BestTag(tags, input, k).value.pair, at);
    }
  }

  lemma {:induction false} FillerThenTag(tags: seq<Pair>, filler: string, p: Pair, rest: string)
    requires Separate(tags) && p in tags && HasNoStartTag(tags, filler)
    ensures BestTag(tags, filler + p.start + rest, |tags|) == Some(TagBounds(|filler|, p))
  {
    var tagged := p.start + rest;
    var text := filler + p.start + rest;
    assert text == filler + tagged;
    forall q, j: nat | q in tags && j < |filler| ensures !OccursAt(text, q.start, j) {
      NoStraddle(filler, q.start, tagged);
    }
    assert text[|filler|..|filler| + |p.start|] == p.start;
    assert tags[..|tags|] == tags;
    BestIsLeftmost(tags, text, |filler|, p, |tags|);
  }

  lemma {:induction false} BlockThenEnd(block: string, end: string, rest: string)
    requires IsTag(end) && Find(block, end) == None
    ensures Find(block + end + rest, end) == Some(|block|)
  {
    var text := block + end + rest;
    assert text == block + (end + rest);
    NoStraddle(block, end, end + rest);
    assert text[|block|..|block| + |end|] == end;
    FoundAt(text, end, |block|);
  }

  /** After filler and a start tag, the block is what comes before its end tag. */
  lemma {:induction false} BlockAfterTag(tags: seq<Pair>, filler: string, p: Pair, inner: string)
    requires Separate(tags) && Usable(tags) && p in tags && HasNoStartTag(tags, filler)
    requires Find(inner, p.end).Some?
    ensures NextBlock(tags, filler + p.start + inner) ==
            Some((inner[..Find(inner, p.end).value], inner[Find(inner, p.end).value + |p.end|..]))
  {
    var text := filler + p.start + inner;
    FillerThenTag(tags, filler, p, inner);
    assert text[|filler| + |p.start|..] == inner;
    assert NextBlock(tags, text) == BlockBefore(inner, p.end);
  }

  lemma {:induction false} WrappedThen(x: Tagged, rest: string)
    ensures Wrapped(x) + rest == x.filler + x.pair.start + (x.block + x.pair.end + rest)
  {
  }

  lemma {:induction false} FirstBlock(tags: seq<Pair>, x: Tagged, rest: string)
    requires Separate(tags) && Usable(tags) && x.pair in tags
    requires HasNoStartTag(tags, x.filler) && HasNoEnd(x)
    ensures NextBlock(tags, Wrapped(x) + rest) == Some((x.block, rest))
  {
    var inner := x.block + x.pair.end + rest;
    WrappedThen(x, rest);
    BlockThenEnd(x.block, x.pair.end, rest);
    BlockAfterTag(tags, x.filler, x.pair, inner);
    assert inner[..|x.block|] == x.block && inner[|x.block| + |x.pair.end|..] == rest;
  }

  /** A block with its own end tag inside is cut short at that tag. */
  lemma {:induction false} CutShort(tags: seq<Pair>, x: Tagged, rest: string)
    requires Separate(tags) && Usable(tags) && x.pair in tags
    requires HasNoStartTag(tags, x.filler) && !HasNoEnd(x)
    ensures NextBlock(tags, Wrapped(x) + rest).Some?
    ensures |NextBlock(tags, Wrapped(x) + rest).value.0| < |x.block|
  {
    var inner := x.block + x.pair.end + rest;
    WrappedThen(x, rest);
    var e := Find(x.block, x.pair.end).value;
    FindIsLeftmost(x.block, x.pair.end);
    FindIsLeftmost(inner, x.pair.end);
    assert inner[e..e + |x.pair.end|] == x.block[e..e + |x.pair.end|];
    assert OccursAt(inner, x.pair.end, e);
    BlockAfterTag(tags, x.filler, x.pair, inner);
  }

  lemma {:induction false} NoEndsSplit(calls: seq<Tagged>)
    requires calls != []
    ensures (forall y :: y in calls ==> HasNoEnd(y)) <==>
      HasNoEnd(calls[0]) && (forall y :: y in calls[1..] ==> HasNoEnd(y))
  {
    assert calls == [calls[0]] + calls[1..];
  }

  /**
   * Exactly the written blocks come back, in order, whatever the tail that has no start tag:
   * this holds precisely when no block contains its own end tag.
   */
  lemma {:induction false} BlocksRoundTrip(tags: seq<Pair>, calls: seq<Tagged>, tail: string)
    requires Separate(tags) && Usable(tags) && HasNoStartTag(tags, tail)
    requires forall x :: x in calls ==> x.pair in tags && HasNoStartTag(tags, x.filler)
    ensures Blocks(tags, Written(calls, tail)) == BlocksOf(calls) <==> forall x :: x in calls ==> HasNoEnd(x)
  {
    if calls == [] {
      NoTagNoBlock(tags, tail, |tags|);
    } else {
      var x, others := calls[0], calls[1..];
      var rest := Written(others, tail);
      BlocksRoundTrip(tags, others, tail);
      BlocksStep(tags, x, rest);
      NoEndsSplit(calls);
      SameHeadSameTail(x.block, BlocksOf(others), Blocks(tags, rest));
    }
  }

  lemma {:induction false} SameHeadSameTail(x: string, s: seq<string>, t: seq<string>)
    ensures [x] + s == [x] + t <==> s == t
  {
    assert ([x] + s)[1..] == s && ([x] + t)[1..] == t;
  }

  lemma {:induction false} BlocksStep(tags: seq<Pair>, x: Tagged, rest: string)
    requires Separate(tags) && Usable(tags) && x.pair in tags && HasNoStartTag(tags, x.filler)
    ensures HasNoEnd(x) ==> Blocks(tags, Wrapped(x) + rest) == [x.block] + Blocks(tags, rest)
    ensures !HasNoEnd(x) ==> var blocks := Blocks(tags, Wrapped(x) + rest); blocks != [] && |blocks[0]| < |x.block|
  {
    if HasNoEnd(x) { FirstBlock(tags, x, rest); } else { CutShort(tags, x, rest); }
  }

  lemma {:induction false} NoTagNoBlock(tags: seq<Pair>, s: string, k: nat)
    requires k <= |tags| && HasNoStartTag(tags, s)
    ensures BestTag(tags, s, k) == None
  {
    if k > 0 {
      NoTagNoBlock(tags, s, k - 1);
      assert Find(s, tags[k - 1].start) == None;
    }
  }

  /** Text without control characters passes the filter unchanged. */
  lemma {:induction false} SanitizeKeeps(s: string)
    requires forall c :: c in s ==> Kept(c)
    ensures Sanitize(s) == s
  {
    if s != [] { SanitizeKeeps(s[1..]); }
  }

  /** What `parse_tagged_tool_calls` sees of a text without control characters, for the three pairs it knows. */
  lemma {:induction false} TaggedTextRoundTrip(calls: seq<Tagged>, tail: string)
    requires HasNoStartTag(TAGS, tail)
    requires forall x :: x in calls ==> x.pair in TAGS && HasNoStartTag(TAGS, x.filler)
    requires forall c :: c in Written(calls, tail) ==> Kept(c)
    ensures Separate(TAGS) && Usable(TAGS)
    ensures Blocks(TAGS, Sanitize(Written(calls, tail))) == BlocksOf(calls) <==> forall x :: x in calls ==> HasNoEnd(x)
  {
    TagsAreSeparate();
    SanitizeKeeps(Written(calls, tail));
    BlocksRoundTrip(TAGS, calls, tail);
  }

  // ---------- what the fallback takes ----------

  /** Opening braces less closing ones. */
  function Depth(s: string): int {
    if s == [] then 0 else
      Depth(s[..|s| - 1]) + (if s[|s| - 1] == '{' then 1 else if s[|s| - 1] == '}' then -1 else 0)
  }

  /** `end` is the first place after the brace at `from` where the braces seen so far balance. */
  predicate ClosesFirst(block: string, from: nat, end: nat) {
    && from < end <= |block|
    && Depth(block[from..end]) == 0
    && forall m :: from < m < end ==> Depth(block[from..m]) > 0
  }

  lemma {:induction false} BraceEndClosesFirst(block: string, from: nat, k: nat, depth: nat)
    requires from < k <= |block| && depth == Depth(block[from..k]) && depth > 0
    requires forall m :: from < m <= k ==> Depth(block[from..m]) > 0
    ensures match BraceEnd(block, k, depth)
      case Some(end) => ClosesFirst(block, from, end)
      case None => forall m :: from < m <= |block| ==> Depth(block[from..m]) > 0
    decreases |block| - k
  {
    if k < |block| {
      assert block[from..k + 1][..k - from] == block[from..k];
      var next := Depth(block[from..k + 1]);
      if next > 0 {
        BraceEndClosesFirst(block, from, k + 1, next);
      }
    }
  }

  predicate IsAscii(s: string) { forall i :: 0 <= i < |s| ==> s[i] as int < 0x80 }

  /** The scan begins at the brace found exactly when the text before that brace is ASCII. */
  lemma {:induction false} ScanStartsAtBrace(prefix: string)
    ensures Utf8.Len(prefix) == |prefix| <==> IsAscii(prefix)
  {
    if prefix != [] {
      var rest := prefix[1..];
      ScanStartsAtBrace(rest);
      assert prefix == [prefix[0]] + rest;
      assert forall i :: 0 < i < |prefix| ==> prefix[i] == rest[i - 1];
      assert forall i :: 0 <= i < |rest| ==> rest[i] == prefix[i + 1];
      assert IsAscii(prefix) <==> prefix[0] as int < 0x80 && IsAscii(rest);
      assert Utf8.Len(prefix) == |Utf8.EncodeChar(prefix[0])| + Utf8.Len(rest);
      assert Utf8.Len(rest) >= |rest|;
    }
  }

  /**
   * What is taken is the text up to the brace that matches the first one, or nothing when that brace is never closed.
   */
  ghost predicate IsMatched(input: string, block: string, from: nat, r: Option<Taken>) {
    match r
    case Some(Taken(taken, consumed)) =>
      taken <= block && ClosesFirst(block, from, |taken|) && consumed <= |input| &&
        input[consumed..] == block[|taken|..]
    case None => StaysOpen(block, from, |block|)
  }

  /** The brace at `from` is not closed before `k`. */
  predicate StaysOpen(block: string, from: nat, k: nat) {
    forall m :: from < m <= k && m <= |block| ==> Depth(block[from..m]) > 0
  }

  /** Braces, if any, are opened before they are closed, and the first opened never is. */
  predicate NeverCloses(s: string) {
    forall m :: 0 < m <= |s| && s[m - 1] == '}' ==> Depth(s[..m]) > 0
  }

  predicate IsBrace(c: char) { c == '{' || c == '}' }

  /** The first brace is a closing one. */
  predicate ClosesNext(s: string) {
    exists p :: 0 <= p < |s| && s[p] == '}' && forall i :: 0 <= i < p ==> !IsBrace(s[i])
  }

  /**
   * The fallback takes the block it should exactly when the scan starts at the first brace, or that brace stays open
   * over the text skipped, and then either nothing after it is ever closed, or one brace is open there and the next
   * one closes it.
   */
  lemma {:induction false} BalancedBlockIsMatched(input: string, block: string, from: nat)
    requires block == TrimStart(input) && "call:" <= block && Find(block, "{") == Some(from)
    ensures var start := Utf8.Len(block[..from]);
      IsMatched(input, block, from, BalancedCallBlock(input)) <==>
        || start == from
        || (StaysOpen(block, from, start)
            && (start >= |block| || NeverCloses(block[start..]) ||
              (Depth(block[from..start]) == 1 && ClosesNext(block[start..]))))
  {
    var start := Utf8.Len(block[..from]);
    TrimStartIsSuffix(input);
    FindIsLeftmost(block, "{");
    FallbackIs(input, block, from, start);
    MatchedIsEnd(input, block, from, BraceEnd(block, start, 0));
    AnyScan(block, from, start);
  }

  lemma {:induction false} FallbackIs(input: string, block: string, from: nat, start: nat)
    requires block == TrimStart(input) && |block| <= |input| && "call:" <= block && Find(block, "{") == Some(from) &&
      start == Utf8.Len(block[..from])
    ensures BalancedCallBlock(input) ==
            match BraceEnd(block, start,
              0) case None => None case Some(e) => Some(Taken(block[..e], |input| - |block| + e))
  {
  }

  lemma {:induction false} AnyScan(block: string, from: nat, start: nat)
    requires OccursAt(block, "{", from) && from <= start
    ensures BraceEnd(block, start, 0) == BraceEnd(block, from + 1, 1) <==>
      || start == from
      || (StaysOpen(block, from, start)
          && (start >= |block| || NeverCloses(block[start..]) ||
            (Depth(block[from..start]) == 1 && ClosesNext(block[start..]))))
  {
    BraceOpens(block, from);
    if start > from { LateScan(block, from, start); }
  }

  /** Only one place closes the first brace. */
  lemma {:induction false} MatchedIsEnd(input: string, block: string, from: nat, end: Option<nat>)
    requires block == TrimStart(input) && |block| <= |input| && OccursAt(block, "{", from) &&
      (end.Some? ==> end.value <= |block|)
    ensures IsMatched(input, block, from,
      match end case None => None case Some(e) => Some(Taken(block[..e], |input| - |block| + e)))
            <==> end == BraceEnd(block, from + 1, 1)
  {
    TrimStartIsSuffix(input);
    BraceOpens(block, from);
    BraceEndClosesFirst(block, from, from + 1, 1);
    var right := BraceEnd(block, from + 1, 1);
    if end.Some? {
      var e := end.value;
      assert |block[..e]| == e && block[..e] <= block;
      SuffixOfSuffix(input, block, e);
      if ClosesFirst(block, from, e) && right.Some? { assert e == right.value; }
    }
  }

  lemma {:induction false} SuffixOfSuffix(input: string, block: string, e: nat)
    requires |block| <= |input| && input[|input| - |block|..] == block && e <= |block|
    ensures |input| - |block| + e <= |input| && input[|input| - |block| + e..] == block[e..]
  {
    assert input[|input| - |block|..][e..] == input[|input| - |block| + e..];
  }

  /** A scan that starts late, against the scan from the first brace. */
  lemma {:induction false} LateScan(block: string, from: nat, start: nat)
    requires OccursAt(block, "{", from) && from < start
    ensures BraceEnd(block, start, 0) == BraceEnd(block, from + 1, 1) <==>
      && StaysOpen(block, from, start)
      && (start >= |block| || NeverCloses(block[start..]) ||
        (Depth(block[from..start]) == 1 && ClosesNext(block[start..])))
  {
    BraceOpens(block, from);
    BraceEndClosesFirst(block, from, from + 1, 1);
    if start >= |block| {
      assert StaysOpen(block, from, start) <==> StaysOpen(block, from, |block|);
    } else if StaysOpen(block, from, start) {
      ScanAhead(block, from, start);
      TwoDepths(block, start, Depth(block[from..start]));
      NeverEnds(block, start);
    } else {
      var m :| from < m <= start && Depth(block[from..m]) <= 0;
      assert BraceEnd(block, from + 1, 1).Some? && BraceEnd(block, from + 1, 1).value <= m;
    }
  }

  /** While the first brace stays open the scan goes on, with the depth so far. */
  lemma {:induction false} ScanAhead(block: string, from: nat, k: nat)
    requires OccursAt(block, "{", from) && from < k <= |block| && StaysOpen(block, from, k)
    ensures Depth(block[from..k]) > 0 && BraceEnd(block, from + 1, 1) == BraceEnd(block, k, Depth(block[from..k]))
  {
    BraceOpens(block, from);
    if k > from + 1 {
      ScanAhead(block, from, k - 1);
      assert block[from..k][..k - 1 - from] == block[from..k - 1];
    }
  }

  /** Starting deeper, a scan that ends does not end there; one that never ends still does not. */
  lemma {:induction false} Deeper(block: string, k: nat, a: nat, b: nat)
    requires 1 <= a < b
    ensures BraceEnd(block, k, a) == None ==> BraceEnd(block, k, b) == None
    ensures BraceEnd(block, k, a).Some? ==> BraceEnd(block, k, b) != BraceEnd(block, k, a)
    decreases |block| - k
  {
    if k < |block| {
      if block[k] == '{' {
        Deeper(block, k + 1, a + 1, b + 1);
      } else if block[k] == '}' {
        if a > 1 { Deeper(block, k + 1, a - 1, b - 1); }
      } else {
        Deeper(block, k + 1, a, b);
      }
    }
  }

  /** A scan from depth zero against one from a depth above it. */
  lemma {:induction false} TwoDepths(block: string, k: nat, depth: nat)
    requires depth >= 1 && k <= |block|
    ensures BraceEnd(block, k, 0) == BraceEnd(block, k, depth) <==>
            BraceEnd(block, k, 0) == None || (depth == 1 && ClosesNext(block[k..]))
    decreases |block| - k
  {
    if k < |block| {
      ClosesNextFirst(block, k);
      if block[k] == '{' {
        Deeper(block, k + 1, 1, depth + 1);
      } else if block[k] != '}' {
        TwoDepths(block, k + 1, depth);
      }
    }
  }

  lemma {:induction false} ClosesNextFirst(block: string, k: nat)
    requires k < |block|
    ensures ClosesNext(block[k..]) <==> block[k] == '}' || (block[k] != '{' && ClosesNext(block[k + 1..]))
  {
    var s, t := block[k..], block[k + 1..];
    assert s[0] == block[k] && forall i :: 0 <= i < |t| ==> t[i] == s[i + 1];
    if ClosesNext(s) && s[0] != '}' {
      var p :| 0 <= p < |s| && s[p] == '}' && forall i :: 0 <= i < p ==> !IsBrace(s[i]);
      assert t[p - 1] == '}';
    }
    if block[k] != '{' && ClosesNext(t) {
      var p :| 0 <= p < |t| && t[p] == '}' && forall i :: 0 <= i < p ==> !IsBrace(t[i]);
      if !IsBrace(s[0]) {
        assert s[p + 1] == '}';
        forall i | 0 <= i < p + 1 ensures !IsBrace(s[i]) { if i > 0 { assert t[i - 1] == s[i]; } }
      }
    }
  }

  lemma {:induction false} DepthFront(s: string)
    requires s != ""
    ensures Depth(s) == (if s[0] == '{' then 1 else if s[0] == '}' then -1 else 0) + Depth(s[1..])
  {
    if |s| == 1 {
      assert s[..0] == "" && s[1..] == "";
    } else {
      assert s[..|s| - 1][1..] == s[1..][..|s| - 2];
      DepthFront(s[..|s| - 1]);
    }
  }

  /** Whether a scan at a depth ends, by the depth of what it reads. */
  predicate ReachesEnd(s: string, depth: nat, m: nat) {
    0 < m <= |s| && s[m - 1] == '}' && depth + Depth(s[..m]) <= 0
  }

  lemma {:induction false} NeverEndsAt(block: string, k: nat, depth: nat)
    requires k <= |block|
    ensures BraceEnd(block, k, depth) == None <==>
      forall m :: 0 < m <= |block| - k ==> !ReachesEnd(block[k..], depth, m)
    decreases |block| - k
  {
    if k < |block| {
      var s, t := block[k..], block[k + 1..];
      var next := if s[0] == '{' then depth + 1 else if s[0] == '}' && depth > 0 then depth - 1 else depth;
      forall m | 1 < m <= |s| && (s[0] != '}' || depth > 1)
        ensures ReachesEnd(s, depth, m) <==> ReachesEnd(t, next, m - 1) {
        DepthFront(s[..m]);
        assert s[..m][1..] == t[..m - 1] && s[m - 1] == t[m - 2];
      }
      DepthFront(s[..1]);
      assert s[..1][1..] == "";
      if s[0] == '}' && depth <= 1 {
        assert ReachesEnd(s, depth, 1);
      } else {
        NeverEndsAt(block, k + 1, next);
        assert !ReachesEnd(s, depth, 1);
        if BraceEnd(block, k + 1, next) != None {
          var m :| 0 < m <= |block| - (k + 1) && ReachesEnd(t, next, m);
          assert ReachesEnd(s, depth, m + 1);
        }
      }
    }
  }

  lemma {:induction false} NeverEnds(block: string, k: nat)
    requires k <= |block|
    ensures BraceEnd(block, k, 0) == None <==> NeverCloses(block[k..])
  {
    NeverEndsAt(block, k, 0);
    var s := block[k..];
    assert forall m :: 0 < m <= |s| ==> (ReachesEnd(s, 0, m) <==> s[m - 1] == '}' && Depth(s[..m]) <= 0);
  }

  lemma {:induction false} BraceOpens(block: string, from: nat)
    requires OccursAt(block, "{", from)
    ensures block[from] == '{' && Depth(block[from..from + 1]) == 1
  {
    assert block[from..from + 1] == "{";
    assert block[from..from + 1][..0] == [];
  }

  /** With an accented name the scan overshoots the brace, and the block taken may leave a brace open. */
  lemma {:induction false} AccentedNameIsCutShort(block: string)
    requires block == "call:" + ['\U{00E9}', '{', '{', '}', '}']
    ensures BalancedCallBlock(block) == Some(Taken(block[..9], 9)) && Depth(block[6..9]) == 1
  {
    assert block[6] == '{' && block[7] == '{' && block[8] == '}';
    assert forall i :: 0 <= i < 6 ==> block[i] != '{';
    assert forall i :: 0 <= i < 6 ==> !OccursAt(block, "{", i) by {
      forall i | 0 <= i < 6 ensures !OccursAt(block, "{", i) { assert block[i..i + 1][0] == block[i]; }
    }
    assert block[6..7] == "{" && OccursAt(block, "{", 6);
    FoundAt(block, "{", 6);
    assert block[..6] == "call:" + ['\U{00E9}'];
    Utf8.EncodeConcat("call:", ['\U{00E9}']);
    ScanStartsAtBrace("call:");
    assert Utf8.Encode(['\U{00E9}']) == Utf8.EncodeChar('\U{00E9}') + Utf8.Encode([]);
    assert Utf8.Len(block[..6]) == 7;
    assert BraceEnd(block, 7, 0) == BraceEnd(block, 8, 1) == Some(9);
    assert block[6..9] == "{{}" && block[6..9][..2] == "{{" && "{{"[..1] == "{" && "{"[..0] == "";
  }

  // ---------- the JSON fallback ----------

  predicate IsBraced(s: string) { s != "" && s[0] == '{' && s[|s| - 1] == '}' }

  /** The content of the first fence. */
  function FenceContent(text: string): Option<string> {
    match Find(text, "```")
    case None => None
    case Some(start) =>
      match Find(text[start + 3..], "```")
      case None => None
      case Some(end) => Some(text[start + 3..][..end])
  }

  /** What a fence says, without the language tag. */
  function FenceBody(block: string): string {
    Trim(if "json" <= block then TrimStart(block[4..]) else block)
  }

  /** The content of the first fence, if it is braced. */
  function FencedObject(text: string): Option<string> {
    match FenceContent(text)
    case None => None
    case Some(block) => if IsBraced(FenceBody(block)) then Some(FenceBody(block)) else None
  }

  /** From the first brace to the one that matches it. */
  function FirstObject(text: string): Option<string> {
    match Find(text, "{")
    case None => None
    case Some(from) =>
      match BraceEnd(text, from + 1, 1)
      case None => None
      case Some(end) => Some(text[from..end])
  }

  function JsonCandidate(input: string): Option<string> {
    var text := Trim(input);
    if IsBraced(text) then Some(text)
    else match FencedObject(text)
      case Some(body) => Some(body)
      case None => FirstObject(text)
  }

  method ExtractBestJsonCandidate(input: string) returns (r: Option<string>)
    ensures r == JsonCandidate(input)
  {
    var text := Trim(input);
    if IsBraced(text) {
      return Some(text);
    }
    var fenced := FencedObject(text);
    if fenced.Some? {
      return fenced;
    }
    r := ScanBraces(text);
  }

  /** The loop over depth and start; a closing brace before any opening one is passed over. */
  method ScanBraces(text: string) returns (r: Option<string>)
    ensures r == FirstObject(text)
  {
    var depth: nat, start: Option<nat> := 0, None;
    FindIsLeftmost(text, "{");
    for i := 0 to |text|
      invariant start == None ==> depth == 0 && forall k :: 0 <= k < i ==> text[k] != '{'
      invariant start.Some? ==> start.value < i && depth > 0 && Find(text, "{") == start
                                && BraceEnd(text, start.value + 1, 1) == BraceEnd(text, i, depth)
    {
      if text[i] == '{' {
        if start == None {
          FirstBrace(text, i);
          start := Some(i);
        }
        depth := depth + 1;
      } else if text[i] == '}' && depth > 0 {
        depth := depth - 1;
        if depth == 0 && start.Some? {
          return Some(text[start.value..i + 1]);
        }
      }
    }
    if start == None { NoBrace(text); }
    r := None;
  }

  lemma {:induction false} FirstBrace(text: string, i: nat)
    requires i < |text| && text[i] == '{' && forall k :: 0 <= k < i ==> text[k] != '{'
    ensures Find(text, "{") == Some(i)
  {
    assert text[i..i + 1] == "{";
    forall j | 0 <= j < i ensures !OccursAt(text, "{", j) { assert text[j..j + 1][0] == text[j]; }
    FoundAt(text, "{", i);
  }

  lemma {:induction false} NoBrace(text: string)
    requires forall k :: 0 <= k < |text| ==> text[k] != '{'
    ensures Find(text, "{") == None
  {
    FindIsLeftmost(text, "{");
    forall j: nat ensures !OccursAt(text, "{", j) { assert j < |text| ==> text[j..j + 1][0] == text[j]; }
  }

  /** A candidate is a braced stretch of the input; the scan's is the first one that balances. */
  lemma {:induction false} CandidateIsBraced(input: string)
    ensures var r := JsonCandidate(input); r.Some? ==> IsBraced(r.value) && exists i :: OccursAt(input, r.value, i)
  {
    var text := Trim(input);
    var before, after := TrimSplits(input);
    assert OccursAt(input, text, |before|);
    if IsBraced(text) {
    } else if FencedObject(text).Some? {
      var i := FencedOccurs(text);
      OccursThrough(input, text, |before|, FencedObject(text).value, i);
    } else if FirstObject(text).Some? {
      FirstObjectCloses(text);
      OccursThrough(input, text, |before|, FirstObject(text).value, Find(text, "{").value);
    }
  }

  lemma {:induction false} OccursThrough(a: string, b: string, i: nat, c: string, j: nat)
    requires OccursAt(a, b, i) && OccursAt(b, c, j)
    ensures OccursAt(a, c, i + j)
  {
    forall k | 0 <= k < |c| ensures a[i + j..i + j + |c|][k] == c[k] {
      assert a[i..i + |b|][j + k] == b[j + k] && b[j..j + |c|][k] == c[k];
    }
  }

  lemma {:induction false} ContentOccurs(text: string) returns (i: nat)
    requires FenceContent(text).Some?
    ensures OccursAt(text, FenceContent(text).value, i)
  {
    i := Find(text, "```").value + 3;
    var rest := text[i..];
    var block := rest[..Find(rest, "```").value];
    assert OccursAt(text, rest, i) && OccursAt(rest, block, 0);
    OccursThrough(text, rest, i, block, 0);
  }

  lemma {:induction false} BodyOccurs(block: string) returns (i: nat)
    ensures OccursAt(block, FenceBody(block), i)
  {
    var body := if "json" <= block then TrimStart(block[4..]) else block;
    var at := |block| - |body|;
    if "json" <= block { TrimStartIsSuffix(block[4..]); }
    assert block[at..] == body && OccursAt(block, body, at);
    var j := TrimOccurs(body);
    i := at + j;
    OccursThrough(block, body, at, Trim(body), j);
  }

  lemma {:induction false} TrimOccurs(s: string) returns (i: nat)
    ensures OccursAt(s, Trim(s), i)
  {
    var before, after := TrimSplits(s);
    i := |before|;
  }

  lemma {:induction false} FencedOccurs(text: string) returns (i: nat)
    requires FencedObject(text).Some?
    ensures OccursAt(text, FencedObject(text).value, i) && IsBraced(FencedObject(text).value)
  {
    var block := FenceContent(text).value;
    var at := ContentOccurs(text);
    var j := BodyOccurs(block);
    i := at + j;
    OccursThrough(text, block, at, FenceBody(block), j);
  }

  /** The scan takes the first balanced stretch, or finds that the first brace is never closed. */
  lemma {:induction false} FirstObjectCloses(text: string)
    ensures match (Find(text, "{"), FirstObject(text))
      case (Some(from), Some(x)) => IsBraced(x) && OccursAt(text, x, from) && ClosesFirst(text, from, from + |x|)
      case (Some(from), None) => StaysOpen(text, from, |text|)
      case (None, r) => r == None && forall k :: 0 <= k < |text| ==> text[k] != '{'
  {
    FindIsLeftmost(text, "{");
    match Find(text, "{")
    case None =>
      forall k | 0 <= k < |text| ensures text[k] != '{' {
        assert !OccursAt(text, "{", k);
        assert text[k..k + 1] == [text[k]];
      }
    case Some(from) => ObjectFrom(text, from);
  }

  lemma {:induction false} ObjectFrom(text: string, from: nat)
    requires OccursAt(text, "{", from)
    ensures match BraceEnd(text, from + 1, 1)
      case Some(end) => IsBraced(text[from..end]) && OccursAt(text, text[from..end], from) &&
        ClosesFirst(text, from, end)
      case None => StaysOpen(text, from, |text|)
  {
    BraceOpens(text, from);
    BraceEndClosesFirst(text, from, from + 1, 1);
    EndsInBrace(text, from + 1, 1);
  }

  lemma {:induction false} EndsInBrace(block: string, k: nat, depth: nat)
    ensures BraceEnd(block, k, depth).Some? ==> block[BraceEnd(block, k, depth).value - 1] == '}'
    decreases |block| - k
  {
    if k < |block| && block[k] == '{' {
      EndsInBrace(block, k + 1, depth + 1);
    } else if k < |block| && block[k] == '}' && depth > 1 {
      EndsInBrace(block, k + 1, depth - 1);
    } else if k < |block| {
      EndsInBrace(block, k + 1, depth);
    }
  }
}

/** Context sizing and token positions of the local provider (crates/termlm-inference/src/local_llama.rs). */
module LlamaWindow {
  import opened Wrappers

  const U32_MAX := 0xFFFF_FFFF
  const I32_MAX := 0x7FFF_FFFF
  const USIZE_MAX := 0xFFFF_FFFF_FFFF_FFFF

  function Max(a: int, b: int): int { if a < b then b else a }
  function Min(a: int, b: int): int { if a < b then a else b }
  function SaturatingSub(a: nat, b: nat): nat { if a < b then 0 else a - b }
  function SaturatingAdd(a: nat, b: nat, limit: nat): nat { Min(a + b, limit) }

  /** The number of tokens a request may generate; `requested` is what the options name, if anything. */
  function MaxOutputTokens(requested: Option<nat>): (r: nat)
    ensures 1 <= r <= 4096
    ensures requested == None ==> r == 384
    ensures requested.Some? && 1 <= requested.value <= 4096 ==> r == requested.value
    ensures requested.Some? && requested.value > 4096 ==> r == 4096
  {
    var wanted := match requested case Some(n) => n case None => 384;
    Max(1, Min(wanted, 4096))
  }

  datatype Window = Window(prompt: seq<int>, nCtx: nat)

  /** The tokens held back from the prompt for the answer. */
  function Reserve(maxOutput: nat): nat {
    Max(SaturatingAdd(maxOutput, 8, USIZE_MAX), 32)
  }

  /** The window before the prompt is looked at. */
  function InitialWindow(contextTokens: nat, modelCtx: nat): nat {
    if modelCtx > 0 then Max(Min(Max(contextTokens, 512), modelCtx), 512) else Max(contextTokens, 512)
  }

  /** The room the model leaves: without a limit of its own, as much as a `u32` can say. */
  function Room(modelCtx: nat): nat {
    if modelCtx == 0 then U32_MAX else Max(modelCtx, 512)
  }

  predicate IsSuffix(end: seq<int>, all: seq<int>) {
    |end| <= |all| && all[|all| - |end|..] == end
  }

  /** That many tokens of prompt leave free the answer and eight spare positions, and never less than 32. */
  predicate LeavesReserve(count: nat, maxOutput: nat, window: nat) {
    count + maxOutput + 8 <= window && count + 32 <= window
  }

  /** `initial` is the window asked for, but at least 512 and within the room of the model. */
  predicate IsInitial(contextTokens: nat, modelCtx: nat, initial: nat) {
    && 512 <= initial <= Room(modelCtx)
    && (initial < contextTokens ==> initial == Room(modelCtx))
    && (initial > contextTokens ==> initial == 512)
  }

  predicate MayKeep(count: nat, maxOutput: nat, initial: nat) {
    count <= 1 || LeavesReserve(count, maxOutput, initial)
  }

  /**
   * The prompt is the end of the tokens: the longest that leaves the reserve free in the initial window, or one token
   * when none does.
   */
  ghost predicate KeepsEnd(maxOutput: nat, initial: nat, tokens: seq<int>, prompt: seq<int>) {
    && IsSuffix(prompt, tokens)
    && (forall n: nat :: n <= |tokens| ==> (n <= |prompt| <==> MayKeep(n, maxOutput, initial)))
    && (LeavesReserve(|tokens|, maxOutput, initial) ==> prompt == tokens)
  }

  /** The window is the initial one, or what prompt and reserve ask for beyond it, within the room of the model. */
  predicate IsSizedFor(modelCtx: nat, maxOutput: nat, initial: nat, w: Window) {
    && initial <= w.nCtx <= Room(modelCtx)
    && (LeavesReserve(|w.prompt|, maxOutput, w.nCtx) || w.nCtx == Room(modelCtx))
    && (forall less: nat :: initial <= less < w.nCtx ==> !LeavesReserve(|w.prompt|, maxOutput, less))
  }

  /** What sizing promises of prompt and window. */
  ghost predicate IsSizing(contextTokens: nat, modelCtx: nat, maxOutput: nat, tokens: seq<int>, w: Window) {
    exists initial: nat :: IsInitial(contextTokens, modelCtx, initial) &&
      KeepsEnd(maxOutput, initial, tokens, w.prompt) && IsSizedFor(modelCtx, maxOutput, initial, w)
  }

  /** Trim the prompt to its end, then size the context for prompt and answer, capped by the model. */
  method SizeContext(contextTokens: nat, modelCtx: nat, maxOutput: nat, tokens: seq<int>) returns (w: Window)
    requires contextTokens <= U32_MAX && modelCtx <= U32_MAX && 1 <= maxOutput <= 4096
    ensures w == Sized(contextTokens, modelCtx, maxOutput, tokens)
    ensures IsSizing(contextTokens, modelCtx, maxOutput, tokens, w)
  {
    var prompt := tokens;
    var nCtx: nat := Max(contextTokens, 512);
    if modelCtx > 0 {
      nCtx := Max(Min(nCtx, modelCtx), 512);
    }
    var reserve := Max(SaturatingAdd(maxOutput, 8, USIZE_MAX), 32);
    var maxPrompt := Max(SaturatingSub(nCtx, reserve), 1);
    if |prompt| > maxPrompt {
      prompt := prompt[SaturatingSub(|prompt|, maxPrompt)..];
    }
    var required := Min(Max(SaturatingAdd(|prompt|, reserve, USIZE_MAX), 512), U32_MAX);
    nCtx := Max(nCtx, required);
    if modelCtx > 0 {
      nCtx := Max(Min(nCtx, modelCtx), 512);
    }
    w := Window(prompt, nCtx);
    assert w == Sized(contextTokens, modelCtx, maxOutput, tokens);
    assert IsSizing(contextTokens, modelCtx, maxOutput, tokens, w) by {
      SizedIsSizing(contextTokens, modelCtx, maxOutput, tokens);
    }
  }

  /** The sizing in closed form. */
  ghost function Sized(contextTokens: nat, modelCtx: nat, maxOutput: nat, tokens: seq<int>): Window {
    var initial := InitialWindow(contextTokens, modelCtx);
    var kept := Min(|tokens|, Max(initial - Reserve(maxOutput), 1));
    var wanted := Max(initial, Min(kept + Reserve(maxOutput), U32_MAX));
    Window(tokens[|tokens| - kept..], if modelCtx > 0 then Max(Min(wanted, modelCtx), 512) else wanted)
  }

  /** The sizing is the one that is promised. */
  lemma {:induction false} SizedIsSizing(contextTokens: nat, modelCtx: nat, maxOutput: nat, tokens: seq<int>)
    requires contextTokens <= U32_MAX && modelCtx <= U32_MAX && 1 <= maxOutput <= 4096
    ensures IsSizing(contextTokens, modelCtx, maxOutput, tokens, Sized(contextTokens, modelCtx, maxOutput, tokens))
  {
    var initial := InitialWindow(contextTokens, modelCtx);
    assert IsInitial(contextTokens, modelCtx, initial);
    SizedKeepsEnd(contextTokens, modelCtx, maxOutput, tokens, initial);
    SizedIsLeast(contextTokens, modelCtx, maxOutput, tokens, initial);
  }

  lemma {:induction false} SizedKeepsEnd(contextTokens: nat, modelCtx: nat, maxOutput: nat, tokens: seq<int>,
      initial: nat)
    requires 1 <= maxOutput <= 4096 && initial == InitialWindow(contextTokens, modelCtx)
    ensures KeepsEnd(maxOutput, initial, tokens, Sized(contextTokens, modelCtx, maxOutput, tokens).prompt)
  {
    var prompt := Sized(contextTokens, modelCtx, maxOutput, tokens).prompt;
    forall n: nat | n <= |tokens|
      ensures n <= |prompt| <==> MayKeep(n, maxOutput, initial)
    {
    }
  }

  lemma {:induction false} SizedIsLeast(contextTokens: nat, modelCtx: nat, maxOutput: nat, tokens: seq<int>,
      initial: nat)
    requires contextTokens <= U32_MAX && modelCtx <= U32_MAX && 1 <= maxOutput <= 4096
    requires initial == InitialWindow(contextTokens, modelCtx)
    ensures IsSizedFor(modelCtx, maxOutput, initial, Sized(contextTokens, modelCtx, maxOutput, tokens))
  {
  }

  lemma {:induction false} SameLength(maxOutput: nat, initial: nat, tokens: seq<int>, a: seq<int>, b: seq<int>)
    requires KeepsEnd(maxOutput, initial, tokens, a) && KeepsEnd(maxOutput, initial, tokens, b)
    ensures |a| <= |b|
  {
    assert MayKeep(|a|, maxOutput, initial);
  }

  /** There is only one such sizing. */
  lemma {:induction false} SizingIsUnique(contextTokens: nat, modelCtx: nat, maxOutput: nat, tokens: seq<int>,
      w: Window, v: Window)
    requires contextTokens <= U32_MAX && modelCtx <= U32_MAX
    requires IsSizing(contextTokens, modelCtx, maxOutput, tokens, w)
    requires IsSizing(contextTokens, modelCtx, maxOutput, tokens, v)
    ensures w == v
  {
    var i: nat :| IsInitial(contextTokens, modelCtx, i) && KeepsEnd(maxOutput, i, tokens, w.prompt) &&
      IsSizedFor(modelCtx, maxOutput, i, w);
    var j: nat :| IsInitial(contextTokens, modelCtx, j) && KeepsEnd(maxOutput, j, tokens, v.prompt) &&
      IsSizedFor(modelCtx, maxOutput, j, v);
    assert i == j;
    SameLength(maxOutput, i, tokens, w.prompt, v.prompt);
    SameLength(maxOutput, i, tokens, v.prompt, w.prompt);
    assert w.nCtx <= v.nCtx && v.nCtx <= w.nCtx;
  }

  /** Prompt, answer and the eight spare positions fit in the window for every prompt exactly when one token does. */
  lemma {:induction false} WindowHoldsPromptAndAnswer(contextTokens: nat, modelCtx: nat, maxOutput: nat)
    requires contextTokens <= U32_MAX && modelCtx <= U32_MAX && 1 <= maxOutput <= 4096
    ensures (forall tokens: seq<int> :: var w := Sized(contextTokens, modelCtx, maxOutput, tokens);
               |w.prompt| + maxOutput + 8 <= w.nCtx)
            <==> maxOutput + 9 <= Room(modelCtx)
  {
    if maxOutput + 9 <= Room(modelCtx) {
      forall tokens: seq<int>
        ensures var w := Sized(contextTokens, modelCtx, maxOutput, tokens); |w.prompt| + maxOutput + 8 <= w.nCtx
      {
        FitsOne(contextTokens, modelCtx, maxOutput, tokens);
      }
    } else {
      var one := [0];
      assert |one| == 1;
      var w := Sized(contextTokens, modelCtx, maxOutput, one);
      assert |w.prompt| == 1 && w.nCtx <= Room(modelCtx);
    }
  }

  lemma {:induction false} FitsOne(contextTokens: nat, modelCtx: nat, maxOutput: nat, tokens: seq<int>)
    requires contextTokens <= U32_MAX && modelCtx <= U32_MAX && 1 <= maxOutput <= 4096
    requires maxOutput + 9 <= Room(modelCtx)
    ensures var w := Sized(contextTokens, modelCtx, maxOutput, tokens);
      |w.prompt| + maxOutput + 8 <= w.nCtx <= U32_MAX
  {
  }

  // ---------- prompt decoding ----------

  /** A token as it enters a batch: its position and whether its logits are kept. */
  datatype Placed = Placed(token: int, pos: nat, logits: bool)

  function AllPlaced(tokens: seq<int>): (r: seq<Placed>)
    ensures |r| == |tokens|
    ensures forall i :: 0 <= i < |r| ==> r[i] == Placed(tokens[i], Min(i, I32_MAX), i + 1 == |tokens|)
  {
    seq(|tokens|, i requires 0 <= i < |tokens| => Placed(tokens[i], Min(i, I32_MAX), i + 1 == |tokens|))
  }

  /** The prompt cut into batches of at most `size`. */
  function Cut(placed: seq<Placed>, size: nat): (r: seq<seq<Placed>>)
    requires size > 0
    decreases |placed|
  {
    if placed == [] then [] else
      var n := Min(size, |placed|);
      [placed[..n]] + Cut(placed[n..], size)
  }

  function Flatten(batches: seq<seq<Placed>>): seq<Placed> {
    if batches == [] then [] else batches[0] + Flatten(batches[1..])
  }

  /** The batches are the prompt: every token once, at its own position, in order, and no batch too long. */
  lemma {:induction false} CutIsThePrompt(placed: seq<Placed>, size: nat)
    requires size > 0
    ensures Flatten(Cut(placed, size)) == placed
    ensures forall b :: b in Cut(placed, size) ==> 1 <= |b| <= size
    decreases |placed|
  {
    if placed != [] {
      var n := Min(size, |placed|);
      CutIsThePrompt(placed[n..], size);
      assert Cut(placed, size)[1..] == Cut(placed[n..], size);
      assert placed == placed[..n] + placed[n..];
    }
  }

  lemma {:induction false} CutStep(placed: seq<Placed>, size: nat, start: nat)
    requires size > 0 && start < |placed|
    ensures var end := Min(start + size, |placed|);
      Cut(placed[start..], size) == [placed[start..end]] + Cut(placed[end..], size)
  {
    var end := Min(start + size, |placed|);
    assert placed[start..][..end - start] == placed[start..end] && placed[start..][end - start..] == placed[end..];
  }

  /** What the model says to the last of the batches it has been given since its context was made. */
  type Model = seq<seq<Placed>> -> bool

  /** Every batch of a trace was accepted but, it may be, the last. */
  predicate AcceptedButLast(accepts: Model, trace: seq<seq<Placed>>) {
    forall k :: 0 < k < |trace| ==> accepts(First(trace, k))
  }

  function First(trace: seq<seq<Placed>>, k: nat): seq<seq<Placed>>
    requires k <= |trace|
  {
    trace[..k]
  }

  /**
   * One attempt at decoding the prompt. The trace is what the model was given: the batches of the prompt, each once
   * and in order, all of them when none is refused, and otherwise up to the one that is.
   */
  method DecodePromptTokens(tokens: seq<int>, batchTokens: nat, accepts: Model)
      returns (ok: bool, trace: seq<seq<Placed>>)
    ensures trace <= Cut(AllPlaced(tokens), Max(batchTokens, 1)) && AcceptedButLast(accepts, trace)
    ensures ok ==> trace == Cut(AllPlaced(tokens), Max(batchTokens, 1)) && (trace != [] ==> accepts(trace))
    ensures !ok ==> trace != [] && !accepts(trace)
  {
    var size := Max(batchTokens, 1);
    ghost var all := AllPlaced(tokens);
    trace := [];
    var start := 0;
    assert all[0..] == all;
    while start < |tokens|
      invariant 0 <= start <= |tokens|
      invariant Cut(all, size) == trace + Cut(all[start..], size)
      invariant AcceptedButLast(accepts, trace) && (trace != [] ==> accepts(trace))
    {
      var end := Min(start + size, |tokens|);
      var batch := FillBatch(tokens, start, end);
      CutStep(all, size, start);
      ghost var rest := Cut(all[end..], size);
      assert trace + ([batch] + rest) == (trace + [batch]) + rest;
      GivenNext(accepts, trace, batch);
      trace := trace + [batch];
      if !accepts(trace) {
        return false, trace;
      }
      start := end;
    }
    assert trace + [] == trace;
    ok := true;
  }

  lemma {:induction false} GivenNext(accepts: Model, trace: seq<seq<Placed>>, batch: seq<Placed>)
    requires AcceptedButLast(accepts, trace) && (trace != [] ==> accepts(trace))
    ensures AcceptedButLast(accepts, trace + [batch])
  {
    var more := trace + [batch];
    forall k | 0 < k < |more| ensures accepts(First(more, k)) {
      assert First(more, k) == First(trace, k);
      if k == |trace| { assert First(trace, k) == trace; }
    }
  }

  method FillBatch(tokens: seq<int>, start: nat, end: nat) returns (batch: seq<Placed>)
    requires start <= end <= |tokens|
    ensures batch == AllPlaced(tokens)[start..end]
  {
    batch := [];
    var chunk := tokens[start..end];
    for offset := 0 to |chunk|
      invariant batch == AllPlaced(tokens)[start..start + offset]
    {
      var absolute := start + offset;
      batch := batch + [Placed(chunk[offset], Min(absolute, I32_MAX), absolute + 1 == |tokens|)];
    }
  }

  /** The batch sizes to try, in order and without repeats. */
  function Candidates(preferred: nat, nCtx: nat): seq<nat> {
    [preferred, Max(1, Min(nCtx, 1024)), Min(preferred, 512), Min(preferred, 256), Min(preferred, 128),
      Min(preferred, 64),
     Min(preferred, 32), Min(preferred, 16), Min(preferred, 8), Min(preferred, 4), Min(preferred, 1)]
  }

  /** The batch length the context is created for. */
  function BatchLimit(batchTokens: nat, nCtx: nat): nat {
    Min(Max(batchTokens, 1), Max(nCtx, 1))
  }

  lemma {:induction false} CandidatesFit(preferred: nat, nCtx: nat)
    requires 1 <= preferred <= nCtx
    ensures forall c :: c in Candidates(preferred, nCtx) ==> 1 <= c <= nCtx && BatchLimit(c, nCtx) == c
  {
  }

  /** The positive sizes, each where it comes first. */
  function Distinct(sizes: seq<nat>): (r: seq<nat>)
    ensures forall c :: c in r <==> c in sizes && c > 0
    ensures forall i, j :: 0 <= i < j < |r| ==> r[i] != r[j]
  {
    if sizes == [] then [] else
      var before, last := Distinct(sizes[..|sizes| - 1]), sizes[|sizes| - 1];
      assert sizes == sizes[..|sizes| - 1] + [last];
      if last > 0 && last !in before then before + [last] else before
  }

  /** One attempt: its batch size, and what the model was given. */
  datatype Attempt = Attempt(size: nat, trace: seq<seq<Placed>>)

  /** An attempt that gave batches of the prompt in order until one was refused. */
  predicate Refused(tokens: seq<int>, accepts: (nat, seq<seq<Placed>>) -> bool, a: Attempt) {
    && a.size > 0 && a.trace != [] && a.trace <= Cut(AllPlaced(tokens), a.size)
    && !accepts(a.size, a.trace) && AcceptedButLast(t => accepts(a.size, t), a.trace)
  }

  /** An attempt that gave the whole prompt, and nothing was refused. */
  predicate Decoded(tokens: seq<int>, accepts: (nat, seq<seq<Placed>>) -> bool, a: Attempt) {
    && a.size > 0 && a.trace == Cut(AllPlaced(tokens), a.size)
    && (a.trace != [] ==> accepts(a.size, a.trace)) && AcceptedButLast(t => accepts(a.size, t), a.trace)
  }

  function Sizes(attempts: seq<Attempt>): (r: seq<nat>)
    ensures |r| == |attempts| && forall i :: 0 <= i < |r| ==> r[i] == attempts[i].size
  {
    seq(|attempts|, i requires 0 <= i < |attempts| => attempts[i].size)
  }

  /** The sizes for a prompt. */
  function SizesToTry(tokens: seq<int>, nCtx: nat): seq<nat> {
    Distinct(Candidates(Min(Max(|tokens|, 1), nCtx), nCtx))
  }

  /** A size that a retry falls back to. */
  predicate IsRetrySize(c: int) {
    c == 512 || c == 256 || c == 128 || c == 64 || c == 32 || c == 16 || c == 8 || c == 4 || c == 1
  }

  lemma {:induction false} DistinctSplit(a: seq<nat>, b: seq<nat>)
    ensures Distinct(a) <= Distinct(a + b)
    decreases |b|
  {
    if b == [] {
      assert a + b == a;
    } else {
      var before, last := b[..|b| - 1], b[|b| - 1];
      assert (a + b)[..|a + b| - 1] == a + before;
      DistinctSplit(a, before);
    }
  }

  /**
   * The sizes for a prompt: first the whole of it, then the whole window up to 1024, then every retry size that is
   * smaller, downwards to single tokens; and nothing else.
   */
  lemma {:induction false} SizesAreRetries(tokens: seq<int>, nCtx: nat)
    requires nCtx >= 1
    ensures var sizes, preferred := SizesToTry(tokens, nCtx), Min(Max(|tokens|, 1), nCtx);
      && sizes != [] && sizes[0] == preferred
      && (Min(nCtx, 1024) != preferred ==> |sizes| > 1 && sizes[1] == Min(nCtx, 1024))
      && (forall c :: c in sizes <==>
            c == preferred || c == Min(nCtx, 1024) || (IsRetrySize(c) && c <= preferred))
      && (forall i, j :: 2 <= i < j < |sizes| ==> sizes[i] > sizes[j])
  {
    var preferred := Min(Max(|tokens|, 1), nCtx);
    SizesHold(preferred, nCtx);
    SizesStart(preferred, nCtx);
    SizesFall(preferred, nCtx);
  }

  lemma {:induction false} SizesHold(preferred: nat, nCtx: nat)
    requires 1 <= preferred <= nCtx
    ensures forall c :: c in Distinct(Candidates(preferred, nCtx)) <==>
      c == preferred || c == Min(nCtx, 1024) || (IsRetrySize(c) && c <= preferred)
  {
    var all := Candidates(preferred, nCtx);
    assert all[10] == 1;
    assert all[0] == preferred && all[1] == Min(nCtx, 1024);
    forall c | IsRetrySize(c) && 0 <= c <= preferred ensures c in all {
      assert c == 512 ==> all[2] == c;
      assert c == 256 ==> all[3] == c;
      assert c == 128 ==> all[4] == c;
      assert c == 64 ==> all[5] == c;
      assert c == 32 ==> all[6] == c;
      assert c == 16 ==> all[7] == c;
      assert c == 8 ==> all[8] == c;
      assert c == 4 ==> all[9] == c;
    }
  }

  lemma {:induction false} SizesStart(preferred: nat, nCtx: nat)
    requires 1 <= preferred <= nCtx
    ensures var sizes := Distinct(Candidates(preferred, nCtx));
      && sizes != [] && sizes[0] == preferred
      && (Min(nCtx, 1024) != preferred ==> |sizes| > 1 && sizes[1] == Min(nCtx, 1024))
  {
    var all, two := Candidates(preferred, nCtx), [preferred, Min(nCtx, 1024)];
    assert all == two + all[2..];
    DistinctSplit(two, all[2..]);
    assert two[..1] == [preferred] && [preferred][..0] == [];
    assert Distinct([]) == [] && Distinct([preferred]) == [preferred];
  }

  /** Sizes that never grow are taken in falling order. */
  lemma {:induction false} DistinctFalls(head: seq<nat>, tail: seq<nat>)
    requires forall i, j :: 0 <= i < j < |tail| ==> tail[i] >= tail[j]
    ensures var sizes, n := Distinct(head + tail), |Distinct(head)|;
      && n <= |sizes|
      && (forall i, j :: n <= i < j < |sizes| ==> sizes[i] > sizes[j])
      && (forall i :: n <= i < |sizes| ==> tail != [] && sizes[i] >= tail[|tail| - 1])
    decreases |tail|
  {
    if tail == [] {
      assert head + tail == head;
    } else {
      var before := tail[..|tail| - 1];
      assert (head + tail)[..|head + tail| - 1] == head + before;
      DistinctFalls(head, before);
    }
  }

  lemma {:induction false} SizesFall(preferred: nat, nCtx: nat)
    requires 1 <= preferred <= nCtx
    ensures var sizes := Distinct(Candidates(preferred, nCtx));
      forall i, j :: 2 <= i < j < |sizes| ==> sizes[i] > sizes[j]
  {
    var all, two := Candidates(preferred, nCtx), [preferred, Min(nCtx, 1024)];
    assert all == two + all[2..];
    assert forall i, j :: 0 <= i < j < 9 ==> all[2..][i] >= all[2..][j];
    DistinctFalls(two, all[2..]);
    assert |Distinct(two)| <= 2 by {
      assert two[..1] == [preferred] && [preferred][..0] == [];
      assert Distinct([]) == [] && |Distinct([preferred])| <= 1;
    }
  }

  method ListSizes(wanted: seq<nat>) returns (sizes: seq<nat>)
    ensures sizes == Distinct(wanted)
  {
    sizes := [];
    for i := 0 to |wanted|
      invariant sizes == Distinct(wanted[..i])
    {
      assert wanted[..i + 1][..i] == wanted[..i] && wanted[..i + 1][i] == wanted[i];
      if wanted[i] > 0 && wanted[i] !in sizes {
        sizes := sizes + [wanted[i]];
      }
    }
    assert wanted[..|wanted|] == wanted;
  }

  /** No batch is longer than the context was created for. */
  predicate IsWithin(a: Attempt, nCtx: nat) {
    1 <= a.size <= nCtx && forall b :: b in a.trace ==> |b| <= BatchLimit(a.size, nCtx)
  }

  method TrySize(tokens: seq<int>, size: nat, nCtx: nat, accepts: (nat, seq<seq<Placed>>) -> bool)
      returns (ok: bool, a: Attempt)
    requires 1 <= size <= nCtx && BatchLimit(size, nCtx) == size
    ensures a.size == size && IsWithin(a, nCtx)
    ensures if ok then Decoded(tokens, accepts, a) else Refused(tokens, accepts, a)
  {
    var trace;
    ok, trace := DecodePromptTokens(tokens, size, t => accepts(size, t));
    a := Attempt(size, trace);
    CutIsThePrompt(AllPlaced(tokens), size);
    forall b | b in trace ensures b in Cut(AllPlaced(tokens), size) {
      var k :| 0 <= k < |trace| && trace[k] == b;
      assert Cut(AllPlaced(tokens), size)[k] == b;
    }
  }

  /**
   * Try the sizes in order, each in a context of its own, until the prompt decodes. Every attempt before the last was
   * refused, and when there is no success all sizes were.
   */
  method DecodeWithRetries(tokens: seq<int>, nCtx: nat, accepts: (nat, seq<seq<Placed>>) -> bool)
      returns (ok: bool, attempts: seq<Attempt>)
    requires nCtx >= 1
    ensures Sizes(attempts) <= SizesToTry(tokens, nCtx)
    ensures ok ==> attempts != [] && Decoded(tokens, accepts, attempts[|attempts| - 1])
    ensures forall i :: 0 <= i < (if ok then |attempts| - 1 else |attempts|) ==> Refused(tokens, accepts, attempts[i])
    ensures !ok ==> Sizes(attempts) == SizesToTry(tokens, nCtx)
    ensures forall i :: 0 <= i < |attempts| ==> IsWithin(attempts[i], nCtx)
  {
    var preferred := Min(Max(|tokens|, 1), nCtx);
    var sizes := ListSizes(Candidates(preferred, nCtx));
    CandidatesFit(preferred, nCtx);
    forall i | 0 <= i < |sizes|
      ensures 1 <= sizes[i] <= nCtx && BatchLimit(sizes[i], nCtx) == sizes[i] { assert sizes[i] in sizes; }
    ok, attempts := TrySizes(tokens, sizes, nCtx, accepts);
  }

  method TrySizes(tokens: seq<int>, sizes: seq<nat>, nCtx: nat, accepts: (nat, seq<seq<Placed>>) -> bool)
      returns (ok: bool, attempts: seq<Attempt>)
    requires forall i :: 0 <= i < |sizes| ==> 1 <= sizes[i] <= nCtx && BatchLimit(sizes[i], nCtx) == sizes[i]
    ensures Sizes(attempts) <= sizes
    ensures ok ==> attempts != [] && Decoded(tokens, accepts, attempts[|attempts| - 1])
    ensures forall i :: 0 <= i < (if ok then |attempts| - 1 else |attempts|) ==> Refused(tokens, accepts, attempts[i])
    ensures !ok ==> Sizes(attempts) == sizes
    ensures forall i :: 0 <= i < |attempts| ==> IsWithin(attempts[i], nCtx)
  {
    attempts := [];
    for i := 0 to |sizes|
      invariant Sizes(attempts) == sizes[..i]
      invariant forall k :: 0 <= k < |attempts| ==> Refused(tokens, accepts, attempts[k]) && IsWithin(attempts[k], nCtx)
    {
      assert sizes[..i + 1] == sizes[..i] + [sizes[i]];
      var decoded, attempt := TrySize(tokens, sizes[i], nCtx, accepts);
      attempts := attempts + [attempt];
      if decoded {
        return true, attempts;
      }
    }
    assert sizes[..|sizes|] == sizes;
    ok := false;
  }

  // ---------- generation ----------

  /** What one turn of the loop comes to. */
  datatype Turn = Cancelled | EndOfGeneration | StopHere | DecodeFails | Continue

  /** How many turns go on before the first that ends the loop. */
  function Running(turns: seq<Turn>): nat {
    if turns == [] || turns[0] != Continue then 0 else 1 + Running(turns[1..])
  }

  /**
   * The positions the generation loop decodes: consecutive from the end of the prompt, one for each turn that goes on.
   */
  method GeneratePositions(promptLen: nat, maxOutput: nat, turns: seq<Turn>) returns (positions: seq<nat>)
    requires maxOutput <= 4096
    ensures forall i :: 0 <= i < |positions| ==> positions[i] == Min(promptLen, I32_MAX) + i
    ensures |positions| == Min(Running(turns), Min(maxOutput, SaturatingSub(I32_MAX, promptLen)))
  {
    positions := [];
    var first := Min(promptLen, I32_MAX);
    var nCur := first;
    var maxTokens := SaturatingAdd(nCur, maxOutput, I32_MAX);
    var t := 0;
    while nCur < maxTokens && t < |turns| && turns[t] == Continue
      invariant t == nCur - first == |positions| <= maxTokens - first
      invariant t <= |turns| && forall i :: 0 <= i < t ==> turns[i] == Continue
      invariant forall i :: 0 <= i < |positions| ==> positions[i] == first + i
      decreases |turns| - t
    {
      positions := positions + [nCur];
      nCur := nCur + 1;
      t := t + 1;
    }
    RunningFrom(turns, t);
  }

  lemma {:induction false} RunningFrom(turns: seq<Turn>, t: nat)
    requires t <= |turns| && forall i :: 0 <= i < t ==> turns[i] == Continue
    ensures t <= Running(turns)
    ensures t == |turns| || turns[t] != Continue ==> Running(turns) == t
  {
    if t > 0 { RunningFrom(turns[1..], t - 1); }
  }

  /** What the model was given for a request: the batches of the prompt, then one token a turn. */
  datatype Run = Run(nCtx: nat, prompt: seq<int>, batchTokens: nat, batches: seq<seq<Placed>>, positions: seq<nat>)

  /**
   * Sizing, prompt decoding and generation in one. The batches given to the context that decodes the prompt are the
   * prompt, in order and once; with room for one prompt token and the answer, every position lies inside the window,
   * each token stands at its own, and logits are asked for the last alone.
   */
  method RunGeneration(contextTokens: nat, modelCtx: nat, requested: Option<nat>, tokens: seq<int>,
                       accepts: (nat, seq<seq<Placed>>) -> bool, turns: seq<Turn>) returns (r: Option<Run>)
    requires contextTokens <= U32_MAX && modelCtx <= U32_MAX
    ensures r.Some? ==>
      && IsSizing(contextTokens, modelCtx, MaxOutputTokens(requested), tokens, Window(r.value.prompt, r.value.nCtx))
      && Decoded(r.value.prompt, accepts, Attempt(r.value.batchTokens, r.value.batches))
      && Flatten(r.value.batches) == AllPlaced(r.value.prompt)
      && (forall i :: 0 <= i < |r.value.positions| ==> r.value.positions[i] == Min(|r.value.prompt|, I32_MAX) + i)
    ensures r.Some? && MaxOutputTokens(requested) + 9 <= Room(modelCtx) ==>
      && (forall p :: p in Flatten(r.value.batches) ==> p.pos < r.value.nCtx)
      && (forall i :: 0 <= i < |r.value.positions| ==> r.value.positions[i] < r.value.nCtx)
  {
    var maxOutput := MaxOutputTokens(requested);
    var w := SizeContext(contextTokens, modelCtx, maxOutput, tokens);
    var ok, attempts := DecodeWithRetries(w.prompt, w.nCtx, accepts);
    if !ok {
      return None;
    }
    var last := attempts[|attempts| - 1];
    assert Window(w.prompt, w.nCtx) == w;
    CutIsThePrompt(AllPlaced(w.prompt), last.size);
    if maxOutput + 9 <= Room(modelCtx) {
      FitsOne(contextTokens, modelCtx, maxOutput, tokens);
    }
    var positions := GeneratePositions(|w.prompt|, maxOutput, turns);
    r := Some(Run(w.nCtx, w.prompt, last.size, last.trace, positions));
  }
}

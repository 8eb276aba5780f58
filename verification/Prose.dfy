/**
 * What the markdown normaliser keeps (crates/termlm-web/src/extract.rs): which lines are written, as what, and that
 * no ink is lost but that of noise and repeats.
 */
module Prose {
  import opened Wrappers
  import opened Text
  import opened Runs
  import opened Markdown

  // ---------- which lines are written ----------

  /** A line that stays: a marker, a line in a fence, or prose that is no noise and says what no line before it said. */
  predicate Stays(r: Rules, lines: seq<string>, k: nat)
    requires k < |lines|
  {
    r.marker(lines[k]) || InFence(r, lines, k) || SpeaksFirst(r, lines, k)
  }

  predicate SpeaksFirst(r: Rules, lines: seq<string>, k: nat)
    requires k < |lines|
  {
    Speaks(r, lines, k) && !Said(r, lines, k, Lower(r.squeeze(lines[k])))
  }

  /** A blank line outside fences. */
  predicate IsPause(r: Rules, lines: seq<string>, k: nat)
    requires k < |lines|
  {
    !r.marker(lines[k]) && !InFence(r, lines, k) && IsBlank(lines[k])
  }

  /** There was a pause, and nothing that stays since. */
  predicate Paused(r: Rules, lines: seq<string>, k: nat)
    requires k <= |lines|
  {
    exists j :: 0 <= j < k && IsPause(r, lines, j) && forall i :: j < i < k ==> !Stays(r, lines, i)
  }

  /** The lines that are written: those that stay, and a pause that does not follow a pause. */
  predicate IsWritten(r: Rules, lines: seq<string>, k: nat)
    requires k < |lines|
  {
    Stays(r, lines, k) || (IsPause(r, lines, k) && !Paused(r, lines, k))
  }

  /** What is written for a line. */
  predicate WrittenAs(r: Rules, lines: seq<string>, k: nat, out: string)
    requires k < |lines|
  {
    if r.marker(lines[k]) then out == TrimEnd(lines[k])
    else if InFence(r, lines, k) then out == lines[k]
    else out == r.squeeze(lines[k])
  }

  lemma {:induction false} PausedNext(r: Rules, lines: seq<string>, k: nat, next: nat)
    requires k < |lines| && next == k + 1
    ensures Paused(r, lines, next) <==> IsPause(r, lines, k) || (Paused(r, lines, k) && !Stays(r, lines, k))
  {
  }

  /** The state in front of a line: whether it is in a fence, follows a pause, and what was said. */
  lemma {:induction false} StateIsPaused(r: Rules, lines: seq<string>, k: nat)
    requires Lawful(r) && k <= |lines|
    ensures StateAt(r, START, lines, k).blank == Paused(r, lines, k)
  {
    if k > 0 {
      StateIsPaused(r, lines, k - 1);
      StateTells(r, lines, k - 1);
      PausedNext(r, lines, k - 1, k);
      BlankAfter(r, lines, k - 1);
    }
  }

  lemma {:induction false} BlankAfter(r: Rules, lines: seq<string>, k: nat)
    requires Lawful(r) && k < |lines|
    ensures var st := StateAt(r, START, lines, k);
      Step(r, st, lines[k]).1.blank == (IsPause(r, lines, k) || (st.blank && !Stays(r, lines, k)))
  {
    StateTells(r, lines, k);
  }

  lemma {:induction false} StepWrites(r: Rules, lines: seq<string>, k: nat)
    requires Lawful(r) && k < |lines|
    ensures var out := Step(r, StateAt(r, START, lines, k), lines[k]).0;
      (out != [] <==> IsWritten(r, lines, k)) && (out != [] ==> |out| == 1 && WrittenAs(r, lines, k, out[0]))
  {
    StateTells(r, lines, k);
    StateIsPaused(r, lines, k);
  }

  function WrittenMarks(r: Rules, lines: seq<string>): (v: seq<bool>)
    ensures |v| == |lines| && forall k :: 0 <= k < |v| ==> v[k] == IsWritten(r, lines, k)
  {
    seq(|lines|, k requires 0 <= k < |lines| => IsWritten(r, lines, k))
  }

  ghost predicate AreMade(r: Rules, lines: seq<string>, from: seq<nat>, out: seq<string>) {
    && |from| == |out|
    && (forall m :: 0 <= m < |from| ==> from[m] < |lines| && WrittenAs(r, lines, from[m], out[m]))
  }

  /**
   * The lines written, and the number of the line each comes from: all those from `begin` on that are written, in
   * order.
   */
  ghost predicate AreWritten(r: Rules, lines: seq<string>, begin: nat, from: seq<nat>, out: seq<string>) {
    AreMarked(WrittenMarks(r, lines), begin, from) && AreMade(r, lines, from, out)
  }

  lemma {:induction false} WrittenMeans(r: Rules, lines: seq<string>, k: nat) returns (from: seq<nat>)
    requires Lawful(r) && k <= |lines|
    ensures AreWritten(r, lines, k, from, Written(r, StateAt(r, START, lines, k), lines[k..]))
    decreases |lines| - k
  {
    if k == |lines| {
      from := [];
    } else {
      var later := WrittenMeans(r, lines, k + 1);
      var out := Step(r, StateAt(r, START, lines, k), lines[k]).0;
      var rest := Written(r, StateAt(r, START, lines, k + 1), lines[k + 1..]);
      from := if out == [] then later else [k] + later;
      StepIsMarked(r, lines, WrittenMarks(r, lines), k, out);
      MarkedNext(WrittenMarks(r, lines), k, k + 1, later);
      if out == [] { assert out + rest == rest; } else { MadeNext(r, lines, k, out, later, rest); }
      WrittenFrom(r, lines, k);
    }
  }

  lemma {:induction false} StepIsMarked(r: Rules, lines: seq<string>, v: seq<bool>, k: nat, out: seq<string>)
    requires Lawful(r) && k < |lines| && v == WrittenMarks(r, lines)
    requires out == Step(r, StateAt(r, START, lines, k), lines[k]).0
    ensures (out != [] <==> v[k]) && (out != [] ==> |out| == 1 && WrittenAs(r, lines, k, out[0]))
  {
    StepWrites(r, lines, k);
  }

  lemma {:induction false} MadeNext(r: Rules, lines: seq<string>, k: nat, out: seq<string>, later: seq<nat>,
      rest: seq<string>)
    requires k < |lines| && |out| == 1 && WrittenAs(r, lines, k, out[0]) && AreMade(r, lines, later, rest)
    ensures AreMade(r, lines, [k] + later, out + rest)
  {
    EachNext(later, rest, k, out[0], (m: nat, o: string) => m < |lines| && WrittenAs(r, lines, m, o));
    assert out + rest == [out[0]] + rest;
  }

  lemma {:induction false} EachNext(later: seq<nat>, rest: seq<string>, k: nat, first: string,
      made: (nat, string) -> bool)
    requires |later| == |rest| && made(k, first) && forall m :: 0 <= m < |later| ==> made(later[m], rest[m])
    ensures forall m :: 0 <= m < |later| + 1 ==> made(([k] + later)[m], ([first] + rest)[m])
  {
  }

  /**
   * For any lawful rules: exactly the lines that stay and the first pauses are written, in order, each as it should be.
   */
  lemma {:induction false} NormalizedMeans(r: Rules, markdown: string) returns (from: seq<nat>, out: seq<string>)
    requires Lawful(r)
    ensures AreWritten(r, Lines(markdown), 0, from, out) && Normalized(r, markdown) == Trim(Join(out))
  {
    var lines := Lines(markdown);
    from := WrittenMeans(r, lines, 0);
    out := Written(r, START, lines);
    assert lines[0..] == lines && StateAt(r, START, lines, 0) == START;
  }

  // ---------- what the rules of the program are ----------

  /** The first three characters that are no whitespace are backquotes. */
  ghost predicate StartsFence(line: string) {
    exists i: nat :: i + 3 <= |line| && IsBlank(line[..i]) && line[i] == line[i + 1] == line[i + 2] == '`'
  }

  /** Which characters are no whitespace. */
  function Inked(s: string): (v: seq<bool>)
    ensures |v| == |s| && forall i :: 0 <= i < |v| ==> v[i] == !IsSpace(s[i])
  {
    seq(|s|, i requires 0 <= i < |s| => !IsSpace(s[i]))
  }

  predicate IsCutOut(s: string, r: Span, word: string) {
    r.begin <= r.end <= |s| && word == s[r.begin..r.end]
  }

  /** The words of a line are its stretches without whitespace, all of them and in order. */
  ghost predicate AreWords(s: string, runs: seq<Span>, words: seq<string>) {
    && AreRuns(Inked(s), runs)
    && |words| == |runs| && (forall k :: 0 <= k < |runs| ==> IsCutOut(s, runs[k], words[k]))
  }

  /** No whitespace but single spaces between words. */
  predicate SingleSpaced(s: string) {
    forall i :: 0 <= i < |s| && IsSpace(s[i]) ==>
      s[i] == ' ' && 0 < i < |s| - 1 && !IsSpace(s[i - 1]) && !IsSpace(s[i + 1])
  }

  /** A line of site furniture. */
  ghost predicate IsFurniture(s: string) {
    var lower := Lower(s);
    || OccursAt(lower, "privacy policy", 0) || OccursAt(lower, "cookie", 0) || OccursAt(lower, "terms of service", 0)
    || (exists i: nat :: OccursAt(lower, "share on ", i)) || (exists i: nat :: OccursAt(lower, "follow us", i))
  }

  /** The lines have the same words. */
  ghost predicate SameWords(s: string, t: string) {
    exists a, b, words :: AreWords(s, a, words) && AreWords(t, b, words)
  }

  lemma {:induction false} MarkerMeans(line: string)
    ensures IsMarker(line) <==> StartsFence(line)
  {
    TrimsCommute(line);
    if IsMarker(line) { MarkerStarts(line, TrimStart(line)); }
    if StartsFence(line) { StartIsMarker(line); }
  }

  lemma {:induction false} MarkerStarts(line: string, t: string)
    requires t == TrimStart(line) && FENCE <= TrimEnd(t)
    ensures StartsFence(line)
  {
    TrimStartLeaves(line);
    TrimEndLeaves(t);
    FenceStarts(line, |line| - |t|, TrimEnd(t));
  }

  lemma {:induction false} StartIsMarker(line: string)
    requires StartsFence(line)
    ensures FENCE <= TrimEnd(TrimStart(line))
  {
    var i: nat :| i + 3 <= |line| && IsBlank(line[..i]) && line[i] == line[i + 1] == line[i + 2] == '`';
    assert line == line[..i] + line[i..];
    TrimStartBlank(line[..i], line[i..]);
    FenceIsMarker(line[i..]);
  }

  lemma {:induction false} FenceStarts(line: string, i: nat, e: string)
    requires i <= |line| && IsBlank(line[..i]) && FENCE <= e <= line[i..]
    ensures StartsFence(line)
  {
    var rest := line[i..];
    assert rest[0] == e[0] == FENCE[0] && rest[1] == e[1] == FENCE[1] && rest[2] == e[2] == FENCE[2];
  }

  lemma {:induction false} FenceIsMarker(rest: string)
    requires |rest| >= 3 && rest[0] == rest[1] == rest[2] == '`'
    ensures FENCE <= TrimEnd(rest) && TrimStart(rest) == rest
  {
    var e := TrimEnd(rest);
    TrimEndLeaves(rest);
    forall i | |e| <= i < |rest| ensures IsSpace(rest[i]) { assert rest[|e|..][i - |e|] == rest[i]; }
    assert !IsSpace(rest[2]);
  }

  lemma {:induction false} WordIsRun(s: string)
    requires s != "" && !IsSpace(s[0])
    ensures IsRun(Inked(s), Span(0, WordLength(s)))
  {
  }

  /** `split_whitespace` gives the stretches without whitespace. */
  lemma {:induction false} WordsMean(s: string) returns (runs: seq<Span>)
    ensures AreWords(s, runs, Words(s))
    decreases |s|
  {
    if s == "" {
      runs := [];
    } else if IsSpace(s[0]) {
      var later := WordsMean(s[1..]);
      WordsPastSpace(s, later, Words(s[1..]));
      runs := ShiftAll(later, 1);
    } else {
      var n := WordLength(s);
      var later := WordsMean(s[n..]);
      WordsPastWord(s, n, later, Words(s[n..]));
      runs := [Span(0, n)] + ShiftAll(later, n);
    }
  }

  lemma {:induction false} WordsPastSpace(s: string, later: seq<Span>, words: seq<string>)
    requires s != "" && IsSpace(s[0]) && AreWords(s[1..], later, words)
    ensures AreWords(s, ShiftAll(later, 1), words)
  {
    assert Inked(s[1..]) == Inked(s)[1..];
    WordsLater(s, 1, later, words);
    RunsPastUnmarked(Inked(s), later);
  }

  lemma {:induction false} WordsPastWord(s: string, n: nat, later: seq<Span>, words: seq<string>)
    requires s != "" && !IsSpace(s[0]) && n == WordLength(s) && AreWords(s[n..], later, words)
    ensures AreWords(s, [Span(0, n)] + ShiftAll(later, n), [s[..n]] + words)
  {
    assert Inked(s[n..]) == Inked(s)[n..];
    WordsLater(s, n, later, words);
    WordIsRun(s);
    RunThenRuns(Inked(s), n, later);
    assert IsCutOut(s, Span(0, n), s[..n]);
  }

  lemma {:induction false} WordsLater(s: string, n: nat, runs: seq<Span>, words: seq<string>)
    requires n <= |s| && |words| == |runs| && (forall k :: 0 <= k < |runs| ==> IsCutOut(s[n..], runs[k], words[k]))
    ensures forall k :: 0 <= k < |runs| ==> IsCutOut(s, ShiftAll(runs, n)[k], words[k])
  {
    forall k | 0 <= k < |runs| ensures IsCutOut(s, Shift(runs[k], n), words[k]) {
      assert IsCutOut(s[n..], runs[k], words[k]);
      SliceOfTail(s, n, runs[k].begin, runs[k].end);
    }
  }

  lemma {:induction false} JoinIsSingleSpaced(words: seq<string>)
    requires AllWords(words)
    ensures SingleSpaced(JoinWords(words))
    ensures words != [] ==> JoinWords(words) != "" && !IsSpace(JoinWords(words)[0])
  {
    if words != [] {
      assert IsWord(words[0]);
      if |words| > 1 {
        JoinIsSingleSpaced(words[1..]);
        SpaceBetween(words[0], JoinWords(words[1..]));
      }
    }
  }

  lemma {:induction false} SpaceBetween(word: string, rest: string)
    requires IsWord(word) && SingleSpaced(rest) && rest != "" && !IsSpace(rest[0])
    ensures SingleSpaced(word + " " + rest)
  {
    var all, n := word + " " + rest, |word| + 1;
    assert forall i :: 0 <= i < |word| ==> all[i] == word[i];
    assert forall i :: n <= i < |all| ==> all[i] == rest[i - n];
  }

  /** Compacting a line keeps its words and leaves single spaces. */
  lemma {:induction false} SqueezeMeans(line: string)
    ensures var t := TheRules().squeeze(line); SameWords(line, t) && SingleSpaced(t) && Words(t) == Words(line)
  {
    var e, t := TrimEnd(line), Squeeze(TrimEnd(line));
    TrimEndLeaves(line);
    WordsBeforeBlank(e, line[|e|..]);
    assert e + line[|e|..] == line;
    WordsAreWords(e);
    WordsOfJoined(Words(e));
    JoinIsSingleSpaced(Words(e));
    var a := WordsMean(line);
    var b := WordsMean(t);
  }

  lemma {:induction false} WordsBeforeBlank(s: string, t: string)
    requires IsBlank(t)
    ensures Words(s + t) == Words(s)
    decreases |s|
  {
    if s == "" {
      assert s + t == t;
      WordsAreWords(t);
    } else if IsSpace(s[0]) {
      assert (s + t)[1..] == s[1..] + t;
      WordsBeforeBlank(s[1..], t);
    } else {
      var n := WordLength(s);
      SameWordLength(s, t);
      assert (s + t)[..n] == s[..n] && (s + t)[n..] == s[n..] + t;
      WordsBeforeBlank(s[n..], t);
    }
  }

  lemma {:induction false} SameWordLength(s: string, t: string)
    requires IsBlank(t)
    ensures WordLength(s + t) == WordLength(s)
  {
    if s == "" {
      assert s + t == t;
    } else {
      assert (s + t)[1..] == s[1..] + t && (s + t)[0] == s[0];
      if !IsSpace(s[0]) { SameWordLength(s[1..], t); }
    }
  }

  lemma {:induction false} NoiseMeans(s: string)
    ensures IsNavigationNoise(s) <==> IsFurniture(s)
  {
    var lower := Lower(s);
    FindIsLeftmost(lower, "share on ");
    FindIsLeftmost(lower, "follow us");
    assert forall needle: string :: |needle| <= |lower| ==> (needle <= lower <==> lower[..|needle|] == needle);
  }

  /** The line rules of the program. */
  lemma {:induction false} RulesMean(line: string)
    ensures var r := TheRules();
      && (r.marker(line) <==> StartsFence(line))
      && (r.noise(line) <==> IsFurniture(line))
      && SameWords(line, r.squeeze(line)) && SingleSpaced(r.squeeze(line))
  {
    MarkerMeans(line);
    NoiseMeans(line);
    SqueezeMeans(line);
  }

  // ---------- ink ----------

  ghost predicate KeepsInk(r: Rules) {
    forall s :: Ink(r.squeeze(s)) == Ink(s)
  }

  /** The ink of the lines that stay, from line `k` on. */
  function StayingInk(r: Rules, lines: seq<string>, k: nat): string
    requires k <= |lines|
    decreases |lines| - k
  {
    if k == |lines| then "" else (if Stays(r, lines, k) then Ink(lines[k]) else "") + StayingInk(r, lines, k + 1)
  }

  lemma {:induction false} InkOfJoin(first: string, rest: seq<string>)
    ensures Ink(Join([first] + rest)) == Ink(first) + Ink(Join(rest))
  {
    var all := [first] + rest;
    assert all[1..] == rest;
    if rest == [] {
      assert Join(all) == first && Ink(Join(rest)) == "";
    } else {
      InkConcat(first + "\n", Join(rest));
      InkConcat(first, "\n");
      BlankHasNoInk("\n");
    }
  }

  lemma {:induction false} TrimEndKeepsInk(s: string)
    ensures Ink(TrimEnd(s)) == Ink(s)
  {
    var e := TrimEnd(s);
    TrimEndLeaves(s);
    InkConcat(e, s[|e|..]);
    BlankHasNoInk(s[|e|..]);
    assert e + s[|e|..] == s;
  }

  lemma {:induction false} WrittenInk(r: Rules, lines: seq<string>, k: nat, out: string)
    requires Lawful(r) && KeepsInk(r) && k < |lines| && IsWritten(r, lines, k) && WrittenAs(r, lines, k, out)
    ensures Ink(out) == if Stays(r, lines, k) then Ink(lines[k]) else ""
  {
    TrimEndKeepsInk(lines[k]);
    BlankHasNoInk(lines[k]);
  }

  lemma {:induction false} InkFromLine(r: Rules, lines: seq<string>, k: nat)
    requires Lawful(r) && KeepsInk(r) && k <= |lines|
    ensures Ink(Join(Written(r, StateAt(r, START, lines, k), lines[k..]))) == StayingInk(r, lines, k)
    decreases |lines| - k
  {
    if k < |lines| {
      var out := Step(r, StateAt(r, START, lines, k), lines[k]).0;
      var later := Written(r, StateAt(r, START, lines, k + 1), lines[k + 1..]);
      InkFromLine(r, lines, k + 1);
      WrittenFrom(r, lines, k);
      StepWrites(r, lines, k);
      InkOfStep(out, later);
      if out != [] { WrittenInk(r, lines, k, out[0]); }
    }
  }

  lemma {:induction false} InkOfStep(out: seq<string>, later: seq<string>)
    requires |out| <= 1
    ensures Ink(Join(out + later)) == (if out == [] then "" else Ink(out[0])) + Ink(Join(later))
  {
    if out == [] {
      assert out + later == later;
    } else {
      assert out == [out[0]];
      InkOfJoin(out[0], later);
    }
  }

  /** The ink of the words is the ink of the text. */
  lemma {:induction false} InkOfWords(s: string)
    ensures Ink(JoinWords(Words(s))) == Ink(s)
    decreases |s|
  {
    if s != "" {
      if IsSpace(s[0]) {
        InkOfWords(s[1..]);
      } else {
        var n := WordLength(s);
        var word, rest := s[..n], s[n..];
        InkOfWords(rest);
        assert s == word + rest && Words(s)[1..] == Words(rest);
        InkConcat(word, rest);
        if Words(rest) != [] {
          InkConcat(word + " ", JoinWords(Words(rest)));
          InkConcat(word, " ");
          BlankHasNoInk(" ");
        }
      }
    }
  }

  lemma {:induction false} RulesKeepInk()
    ensures KeepsInk(TheRules())
  {
    forall s ensures Ink(TheRules().squeeze(s)) == Ink(s) {
      InkOfWords(TrimEnd(s));
      TrimEndKeepsInk(s);
    }
  }

  /**
   * The ink of the result is, in order, the ink of the markers, of the fenced lines, and of the prose that is no noise
   * and was not said before.
   */
  lemma {:induction false} InkIsKept(markdown: string)
    ensures Ink(Normalized(TheRules(), markdown)) == StayingInk(TheRules(), Lines(markdown), 0)
  {
    var r, lines := TheRules(), Lines(markdown);
    RulesAreLawful();
    RulesKeepInk();
    InkFromLine(r, lines, 0);
    assert lines[0..] == lines && StateAt(r, START, lines, 0) == START;
    TrimKeepsInk(Join(Written(r, START, lines)));
  }
}

/** The markdown normaliser of the web extractor (crates/termlm-web/src/extract.rs). */
module Markdown {
  import opened Wrappers
  import opened Text

  // ---------- the normaliser ----------

  function Join(lines: seq<string>): string {
    if lines == [] then ""
    else if |lines| == 1 then lines[0]
    else lines[0] + "\n" + Join(lines[1..])
  }

  /** Fence markers, whitespace squeezing and the noise filter, all on a line with or without whitespace at its end. */
  datatype Rules = Rules(marker: string -> bool, squeeze: string -> string, noise: string -> bool)

  datatype State = State(seen: set<string>, blank: bool, inFence: bool)

  const START := State({}, false, false)

  /** One turn of the loop: the lines written, none or one, and the state after it. */
  function Step(r: Rules, st: State, raw: string): (seq<string>, State) {
    if r.marker(raw) then ([TrimEnd(raw)], st.(inFence := !st.inFence, blank := false))
    else if st.inFence then ([raw], st.(blank := false))
    else
      var compact := r.squeeze(raw);
      if compact == "" then
        if st.blank then ([], st) else ([""], st.(blank := true))
      else if r.noise(compact) || Lower(compact) in st.seen then ([], st)
      else ([compact], st.(seen := st.seen + {Lower(compact)}, blank := false))
  }

  /** The lines written from a state on. */
  function Written(r: Rules, st: State, lines: seq<string>): seq<string>
    decreases |lines|
  {
    if lines == [] then [] else
      var (out, next) := Step(r, st, lines[0]);
      out + Written(r, next, lines[1..])
  }

  function Normalized(r: Rules, markdown: string): string {
    Trim(Join(Written(r, START, Lines(markdown))))
  }

  method Normalize(r: Rules, markdown: string) returns (text: string)
    ensures text == Normalized(r, markdown)
  {
    var out: seq<string>, seen: set<string>, blank, inFence := [], {}, false, false;
    var lines := Lines(markdown);
    ghost var all := Written(r, START, lines);
    assert lines[0..] == lines;
    for i := 0 to |lines|
      invariant out + Written(r, State(seen, blank, inFence), lines[i..]) == all
    {
      var raw := lines[i];
      ghost var written := out;
      ghost var (wrote, next) := Step(r, State(seen, blank, inFence), raw);
      WrittenNext(r, State(seen, blank, inFence), lines, i, out);
      if r.marker(raw) {
        inFence := !inFence;
        out := out + [TrimEnd(raw)];
        blank := false;
      } else if inFence {
        out := out + [raw];
        blank := false;
      } else {
        var compact := r.squeeze(raw);
        if compact == "" {
          if !blank {
            out := out + [""];
            blank := true;
          }
        } else if !r.noise(compact) && Lower(compact) !in seen {
          seen := seen + {Lower(compact)};
          out := out + [compact];
          blank := false;
        }
      }
      assert out == written + wrote && State(seen, blank, inFence) == next;
    }
    assert lines[|lines|..] == [] && out == all;
    text := Trim(Join(out));
  }

  lemma {:induction false} WrittenNext(r: Rules, st: State, lines: seq<string>, i: nat, out: seq<string>)
    requires i < |lines|
    ensures var (wrote, next) := Step(r, st, lines[i]);
      out + Written(r, st, lines[i..]) == (out + wrote) + Written(r, next, lines[i + 1..])
  {
    assert lines[i..][1..] == lines[i + 1..] && lines[i..][0] == lines[i];
  }

  // ---------- what the rules obey ----------

  predicate IsTight(s: string) {
    s != "" ==> !IsSpace(s[0]) && !IsSpace(s[|s| - 1])
  }

  predicate OneLine(s: string) {
    forall i :: 0 <= i < |s| ==> s[i] != '\n'
  }

  /** No whitespace but spaces. */
  predicate Spaced(s: string) {
    forall i :: 0 <= i < |s| ==> s[i] == ' ' || !IsSpace(s[i])
  }

  ghost predicate Lawful(r: Rules) {
    && (forall s :: r.marker(TrimEnd(s)) == r.marker(s))
    && (forall s :: r.marker(TrimStart(s)) == r.marker(s))
    && (forall s :: r.marker(s) ==> !IsBlank(s))
    && (forall s :: r.squeeze(s) == "" <==> IsBlank(s))
    && (forall s :: r.squeeze(r.squeeze(s)) == r.squeeze(s))
    && (forall s :: IsTight(r.squeeze(s)) && Spaced(r.squeeze(s)) && |r.squeeze(s)| <= |s|)
    && (forall s :: !r.marker(s) ==> !r.marker(r.squeeze(s)))
  }

  // ---------- normalising what was normalised ----------

  /**
   * A step writes nothing and changes nothing, or it writes one line that the same state would write again to the same
   * effect.
   */
  lemma {:induction false} StepAgain(r: Rules, st: State, raw: string)
    requires Lawful(r)
    ensures var (out, next) := Step(r, st, raw);
      (out == [] && next == st) || (|out| == 1 && Step(r, st, out[0]) == (out, next) && |out[0]| <= |raw|)
  {
    TrimEndTwice(raw);
    TrimEndLeaves(raw);
    assert r.marker(TrimEnd(raw)) == r.marker(raw);
    assert IsBlank("");
  }

  /** Every line is written, and as it is. */
  ghost predicate Stable(r: Rules, st: State, lines: seq<string>) {
    Written(r, st, lines) == lines
  }

  /** What was written once is written again unchanged. */
  lemma {:induction false} WrittenIsStable(r: Rules, st: State, lines: seq<string>)
    requires Lawful(r)
    ensures Stable(r, st, Written(r, st, lines))
    decreases |lines|
  {
    if lines != [] {
      var (out, next) := Step(r, st, lines[0]);
      var later := Written(r, next, lines[1..]);
      WrittenIsStable(r, next, lines[1..]);
      StepAgain(r, st, lines[0]);
      if out != [] {
        assert (out + later)[1..] == later && (out + later)[0] == out[0];
      } else {
        assert out + later == later;
      }
    }
  }

  lemma {:induction false} WrittenIsNoLonger(r: Rules, st: State, lines: seq<string>)
    requires Lawful(r)
    ensures |Written(r, st, lines)| <= |lines|
    decreases |lines|
  {
    if lines != [] {
      StepAgain(r, st, lines[0]);
      WrittenIsNoLonger(r, Step(r, st, lines[0]).1, lines[1..]);
    }
  }

  /** In a stable list the first line is written in its place, and the rest is stable from there. */
  lemma {:induction false} StableFirst(r: Rules, st: State, lines: seq<string>)
    requires Lawful(r) && lines != []
    ensures Stable(r, st, lines) <==>
      Step(r, st, lines[0]).0 == [lines[0]] && Stable(r, Step(r, st, lines[0]).1, lines[1..])
  {
    var (out, next) := Step(r, st, lines[0]);
    var later := Written(r, next, lines[1..]);
    StepAgain(r, st, lines[0]);
    WrittenIsNoLonger(r, next, lines[1..]);
    assert lines == [lines[0]] + lines[1..];
    if out != [] {
      assert (out + later)[1..] == later && (out + later)[0] == out[0];
    }
  }

  // ---------- the outer trim ----------

  /** Lines without the blank ones at the end, the last one trimmed there. */
  function DropBack(lines: seq<string>): seq<string> {
    if lines == [] then [] else
      var later := DropBack(lines[1..]);
      if later != [] then [lines[0]] + later
      else if IsBlank(lines[0]) then []
      else [TrimEnd(lines[0])]
  }

  function DropFront(lines: seq<string>): seq<string> {
    if lines == [] then []
    else if IsBlank(lines[0]) then DropFront(lines[1..])
    else [TrimStart(lines[0])] + lines[1..]
  }

  lemma {:induction false} TrimEndOfJoin(lines: seq<string>)
    ensures TrimEnd(Join(lines)) == Join(DropBack(lines))
    ensures DropBack(lines) == [] <==> IsBlank(Join(lines))
    ensures DropBack(lines) != [] ==> Join(DropBack(lines)) != ""
  {
    if lines != [] {
      var first, rest := lines[0], lines[1..];
      TrimEndOfJoin(rest);
      var later := DropBack(rest);
      TrimEndLeaves(first);
      TrimEndLeaves(Join(rest));
      if rest != [] {
        if later != [] {
          EndsLater(first, Join(rest));
          assert ([first] + later)[1..] == later;
        } else {
          EndsHere(first, Join(rest));
        }
      }
    }
  }

  lemma {:induction false} EndsLater(first: string, rest: string)
    requires !IsBlank(rest)
    ensures TrimEnd(first + "\n" + rest) == first + "\n" + TrimEnd(rest) && !IsBlank(first + "\n" + rest)
  {
    TrimEndLater(first + "\n", rest);
    NotBlankAfter(first + "\n", rest);
  }

  lemma {:induction false} EndsHere(first: string, rest: string)
    requires IsBlank(rest)
    ensures TrimEnd(first + "\n" + rest) == TrimEnd(first) && (IsBlank(first + "\n" + rest) <==> IsBlank(first))
  {
    var all := first + "\n" + rest;
    assert all == first + ("\n" + rest);
    TrimEndBlank(first, "\n" + rest);
    assert first == all[..|first|];
  }

  lemma {:induction false} TrimStartOfJoin(lines: seq<string>)
    ensures TrimStart(Join(lines)) == Join(DropFront(lines))
  {
    if lines != [] {
      var first, rest := lines[0], lines[1..];
      if IsBlank(first) {
        TrimStartOfJoin(rest);
        if rest == [] {
          assert first + [] == first;
          TrimStartBlank(first, []);
        } else {
          assert Join(lines) == (first + "\n") + Join(rest);
          TrimStartBlank(first + "\n", Join(rest));
        }
      } else {
        var cut := DropFront(lines);
        assert cut[1..] == rest;
        if rest != [] {
          assert Join(lines) == first + ("\n" + Join(rest));
          TrimStartEarlier(first, "\n" + Join(rest));
          assert Join(cut) == TrimStart(first) + "\n" + Join(rest);
          assert TrimStart(first) + "\n" + Join(rest) == TrimStart(first) + ("\n" + Join(rest));
        }
      }
    }
  }

  /** A line that is written as it is still is once trimmed at its end. */
  lemma {:induction false} TightEnd(r: Rules, st: State, line: string)
    requires Lawful(r) && !IsBlank(line) && Step(r, st, line).0 == [line]
    ensures Step(r, st, TrimEnd(line)).0 == [TrimEnd(line)]
  {
    TrimEndTwice(line);
    assert r.marker(TrimEnd(line)) == r.marker(line);
    if !r.marker(line) && !st.inFence {
      assert line == r.squeeze(line);
      assert TrimEnd(line) == line;
    }
  }

  lemma {:induction false} DropBackIsStable(r: Rules, st: State, lines: seq<string>)
    requires Lawful(r) && Stable(r, st, lines)
    ensures Stable(r, st, DropBack(lines))
    decreases |lines|
  {
    if lines != [] {
      var first, rest, next := lines[0], lines[1..], Step(r, st, lines[0]).1;
      StableFirst(r, st, lines);
      DropBackIsStable(r, next, rest);
      var later := DropBack(rest);
      if later != [] {
        assert ([first] + later)[1..] == later;
        StableFirst(r, st, [first] + later);
      } else if !IsBlank(first) {
        TightEnd(r, st, first);
        assert [TrimEnd(first)][1..] == [];
        StableFirst(r, st, [TrimEnd(first)]);
      }
    }
  }

  /** Outside a fence, a first line written as it is still is once trimmed at its start, to the same effect. */
  lemma {:induction false} TightStart(r: Rules, st: State, line: string)
    requires Lawful(r) && !IsBlank(line) && !st.inFence && Step(r, st, line).0 == [line]
    ensures Step(r, st, TrimStart(line)) == ([TrimStart(line)], Step(r, st, line).1)
  {
    TrimStartLeaves(line);
    TrimEndLeaves(line);
    assert r.marker(TrimStart(line)) == r.marker(line);
    if r.marker(line) {
      assert line == TrimEnd(line);
      assert TrimStart(line)[|TrimStart(line)| - 1] == line[|line| - 1];
    } else {
      assert line == r.squeeze(line);
      assert TrimStart(line) == line;
    }
  }

  lemma {:induction false} DropFrontIsStable(r: Rules, st: State, lines: seq<string>)
    requires Lawful(r) && !st.inFence && Stable(r, st, lines)
    ensures Stable(r, st.(blank := false), DropFront(lines))
    decreases |lines|
  {
    if lines != [] {
      var first, rest, next := lines[0], lines[1..], Step(r, st, lines[0]).1;
      StableFirst(r, st, lines);
      if IsBlank(first) {
        assert !r.marker(first) && r.squeeze(first) == "";
        assert next == st.(blank := true);
        DropFrontIsStable(r, next, rest);
      } else {
        var st' := st.(blank := false);
        assert Step(r, st', first) == Step(r, st, first) by { assert r.squeeze(first) != ""; }
        TightStart(r, st', first);
        var cut := [TrimStart(first)] + rest;
        assert cut[1..] == rest;
        StableFirst(r, st', cut);
      }
    }
  }

  // ---------- lines and joins ----------

  /**
   * Joining lines and splitting the result gives them back, when none has a newline in it, none but the last ends in a
   * return, and the last is not empty.
   */
  lemma {:induction false} LinesOfJoin(lines: seq<string>)
    requires forall i :: 0 <= i < |lines| ==> OneLine(lines[i])
    requires forall i :: 0 <= i < |lines| - 1 ==> !EndsInReturn(lines[i])
    requires lines != [] ==> lines[|lines| - 1] != ""
    ensures Lines(Join(lines)) == lines
  {
    if |lines| == 1 {
      NewlineFirst(lines[0], "");
    } else if lines != [] {
      var first, rest := lines[0], lines[1..];
      LinesOfJoin(rest);
      NewlineFirst(first, "\n" + Join(rest));
      var all := first + ("\n" + Join(rest));
      assert Join(lines) == all;
      assert all[..|first|] == first && all[|first| + 1..] == Join(rest);
    }
  }

  lemma {:induction false} NewlineFirst(line: string, rest: string)
    requires OneLine(line) && (rest == "" || rest[0] == '\n')
    ensures NewlineAt(line + rest) == if rest == "" then None else Some(|line|)
  {
    if line == [] {
      assert line + rest == rest;
    } else {
      assert (line + rest)[1..] == line[1..] + rest;
      NewlineFirst(line[1..], rest);
    }
  }

  lemma {:induction false} JoinLength(lines: seq<string>, other: seq<string>)
    requires |lines| == |other| && forall i :: 0 <= i < |lines| ==> |lines[i]| <= |other[i]|
    ensures |Join(lines)| <= |Join(other)|
  {
    if |lines| > 1 { JoinLength(lines[1..], other[1..]); }
  }

  /** Nothing that is written is longer than what it was written from. */
  lemma {:induction false} WrittenIsShorter(r: Rules, st: State, lines: seq<string>)
    requires Lawful(r)
    ensures |Join(Written(r, st, lines))| <= |Join(lines)|
    decreases |lines|
  {
    if lines != [] {
      var (out, next) := Step(r, st, lines[0]);
      StepAgain(r, st, lines[0]);
      WrittenIsShorter(r, next, lines[1..]);
      WrittenIsNoLonger(r, next, lines[1..]);
      var later := Written(r, next, lines[1..]);
      if out == [] { assert out + later == later; } else { assert (out + later)[1..] == later; }
    }
  }

  /** Splitting into lines and joining loses a character for each return that ended a line. */
  lemma {:induction false} LinesLoseReturns(s: string)
    ensures |Join(Lines(s))| <= |s|
    ensures HasReturnNewline(s) ==> |Join(Lines(s))| < |s|
    decreases |s|
  {
    if s != [] {
      match NewlineAt(s)
      case None => NoNewlineNoReturn(s);
      case Some(nl) =>
        var line, rest := s[..nl], s[nl + 1..];
        LinesLoseReturns(rest);
        assert Lines(s)[1..] == Lines(rest);
        if !EndsInReturn(line) && HasReturnNewline(s) {
          var i: nat :| OccursAt(s, "\r\n", i);
          ReturnLater(s, nl, i);
        }
    }
  }

  lemma {:induction false} NoNewlineNoReturn(s: string)
    requires OneLine(s)
    ensures !HasReturnNewline(s)
  {
    forall i: nat | i + 2 <= |s| ensures !OccursAt(s, "\r\n", i) { assert s[i..i + 2][1] == s[i + 1]; }
  }

  lemma {:induction false} ReturnLater(s: string, nl: nat, i: nat)
    requires NewlineAt(s) == Some(nl) && !EndsInReturn(s[..nl]) && OccursAt(s, "\r\n", i)
    ensures i > nl && OccursAt(s[nl + 1..], "\r\n", i - nl - 1)
  {
    assert s[i..i + 2][0] == s[i] == '\r' && s[i..i + 2][1] == s[i + 1] == '\n';
    if nl > 0 { assert s[..nl][nl - 1] == s[nl - 1]; }
    assert s[nl + 1..][i - nl - 1..i - nl + 1] == s[i..i + 2];
  }

  // ---------- idempotence ----------

  lemma {:induction false} WrittenLinesAreLines(r: Rules, st: State, lines: seq<string>)
    requires Lawful(r) && forall i :: 0 <= i < |lines| ==> OneLine(lines[i])
    ensures forall i :: 0 <= i < |Written(r, st, lines)| ==> OneLine(Written(r, st, lines)[i])
    decreases |lines|
  {
    if lines != [] {
      TrimEndLeaves(lines[0]);
      assert Spaced(r.squeeze(lines[0])) && OneLine(lines[0]);
      var (out, next) := Step(r, st, lines[0]);
      assert forall i :: 0 <= i < |out| ==> OneLine(out[i]);
      WrittenLinesAreLines(r, next, lines[1..]);
    }
  }

  lemma {:induction false} LinesAreLines(s: string)
    ensures forall i :: 0 <= i < |Lines(s)| ==> OneLine(Lines(s)[i])
    decreases |s|
  {
    if s != [] && NewlineAt(s).Some? {
      LinesAreLines(s[NewlineAt(s).value + 1..]);
    }
  }

  lemma {:induction false} DroppedAreLines(lines: seq<string>)
    requires forall i :: 0 <= i < |lines| ==> OneLine(lines[i])
    ensures forall i :: 0 <= i < |DropBack(lines)| ==> OneLine(DropBack(lines)[i])
    ensures forall i :: 0 <= i < |DropFront(lines)| ==> OneLine(DropFront(lines)[i])
    ensures DropBack(lines) != [] ==> DropBack(lines)[|DropBack(lines)| - 1] != ""
  {
    if lines != [] {
      DroppedAreLines(lines[1..]);
      TrimEndLeaves(lines[0]);
      TrimStartLeaves(lines[0]);
    }
  }

  /** The lines of the result: what was written, less the outer whitespace. */
  function Kept(r: Rules, markdown: string): seq<string> {
    DropBack(DropFront(Written(r, START, Lines(markdown))))
  }

  lemma {:induction false} KeptIsResult(r: Rules, markdown: string)
    requires Lawful(r)
    ensures Normalized(r, markdown) == Join(Kept(r, markdown))
    ensures Stable(r, START, Kept(r, markdown))
    ensures forall i :: 0 <= i < |Kept(r, markdown)| ==> OneLine(Kept(r, markdown)[i])
    ensures Kept(r, markdown) != [] ==> Kept(r, markdown)[|Kept(r, markdown)| - 1] != ""
  {
    var out := Written(r, START, Lines(markdown));
    TrimStartOfJoin(out);
    TrimEndOfJoin(DropFront(out));
    WrittenIsStable(r, START, Lines(markdown));
    DropFrontIsStable(r, START, out);
    DropBackIsStable(r, START, DropFront(out));
    LinesAreLines(markdown);
    WrittenLinesAreLines(r, START, Lines(markdown));
    DroppedAreLines(out);
    DroppedAreLines(DropFront(out));
  }

  ghost predicate HasReturnNewline(s: string) {
    exists i: nat :: OccursAt(s, "\r\n", i)
  }

  lemma {:induction false} NoReturnsInJoin(lines: seq<string>)
    requires !HasReturnNewline(Join(lines))
    ensures forall i :: 0 <= i < |lines| - 1 ==> !EndsInReturn(lines[i])
  {
    if |lines| > 1 {
      var first, rest, all := lines[0], lines[1..], Join(lines);
      forall i: nat ensures !OccursAt(Join(rest), "\r\n", i) {
        assert !OccursAt(all, "\r\n", |first| + 1 + i);
        if i + 2 <= |Join(rest)| { assert all[|first| + 1 + i..|first| + 1 + i + 2] == Join(rest)[i..i + 2]; }
      }
      NoReturnsInJoin(rest);
      if first != "" {
        var k := |first| - 1;
        assert !OccursAt(all, "\r\n", k);
        assert all[k..k + 2] == [first[k], '\n'];
      }
    }
  }

  /** A normalised text is left as it is by normalising it again exactly when it has no return before a newline. */
  lemma {:induction false} TextAgain(r: Rules, markdown: string)
    requires Lawful(r)
    ensures var text := Normalized(r, markdown);
      Normalized(r, text) == text <==> !HasReturnNewline(text)
  {
    var text, kept := Normalized(r, markdown), Kept(r, markdown);
    KeptIsResult(r, markdown);
    if HasReturnNewline(text) {
      LinesLoseReturns(text);
      WrittenIsShorter(r, START, Lines(text));
      var before, after := TrimSplits(Join(Written(r, START, Lines(text))));
    } else {
      NoReturnsInJoin(kept);
      LinesOfJoin(kept);
      TrimTwice(Join(Written(r, START, Lines(markdown))));
    }
  }

  // ---------- which lines lose a return ----------

  /** Whether a line lies in a fence: an odd number of markers stands before it. */
  function InFence(r: Rules, lines: seq<string>, k: nat): bool
    requires k <= |lines|
  {
    if k == 0 then false
    else if r.marker(lines[k - 1]) then !InFence(r, lines, k - 1)
    else InFence(r, lines, k - 1)
  }

  /** The state in front of line `k`. */
  function StateAt(r: Rules, st: State, lines: seq<string>, k: nat): State
    requires k <= |lines|
  {
    if k == 0 then st else Step(r, StateAt(r, st, lines, k - 1), lines[k - 1]).1
  }

  /** A line that says something outside fences. */
  predicate Speaks(r: Rules, lines: seq<string>, i: nat)
    requires i < |lines|
  {
    !InFence(r, lines, i) && !r.marker(lines[i]) && !IsBlank(lines[i]) && !r.noise(r.squeeze(lines[i]))
  }

  /** Whether a line is written with ink: a marker, a fenced line, or one that says what no line before it said. */
  predicate WritesInk(r: Rules, lines: seq<string>, j: nat)
    requires j < |lines|
  {
    || r.marker(lines[j])
    || (InFence(r, lines, j) && !IsBlank(lines[j]))
    || (Speaks(r, lines, j) &&
      forall i :: 0 <= i < j && Speaks(r, lines, i) ==> Lower(r.squeeze(lines[i])) != Lower(r.squeeze(lines[j])))
  }

  /** A fenced line that still ends in a return after its line end was taken off. */
  predicate KeepsReturn(r: Rules, lines: seq<string>, i: nat)
    requires i < |lines|
  {
    InFence(r, lines, i) && !r.marker(lines[i]) && EndsInReturn(lines[i])
  }

  /** Such a line with ink after it: written out, its return stands before a newline. */
  predicate ReturnIsLost(r: Rules, lines: seq<string>) {
    exists i, j :: 0 <= i < j < |lines| && KeepsReturn(r, lines, i) && WritesInk(r, lines, j)
  }

  predicate AllBlank(lines: seq<string>) {
    forall i :: 0 <= i < |lines| ==> IsBlank(lines[i])
  }

  predicate ReturnBeforeLast(lines: seq<string>) {
    |lines| > 1 && (EndsInReturn(lines[0]) || ReturnBeforeLast(lines[1..]))
  }

  predicate ReturnBeforeInk(lines: seq<string>) {
    lines != [] && ((EndsInReturn(lines[0]) && !AllBlank(lines[1..])) || ReturnBeforeInk(lines[1..]))
  }

  lemma {:induction false} NoReturnBeforeLast(lines: seq<string>)
    ensures ReturnBeforeLast(lines) <==> exists i :: 0 <= i < |lines| - 1 && EndsInReturn(lines[i])
  {
    if |lines| > 1 {
      NoReturnBeforeLast(lines[1..]);
      assert forall i :: 0 < i < |lines| ==> lines[1..][i - 1] == lines[i];
      if exists i :: 0 <= i < |lines| - 1 && EndsInReturn(lines[i]) {
        var i :| 0 <= i < |lines| - 1 && EndsInReturn(lines[i]);
        if i > 0 { assert EndsInReturn(lines[1..][i - 1]); }
      }
    }
  }

  lemma {:induction false} AllBlankFirst(lines: seq<string>)
    requires lines != []
    ensures AllBlank(lines) <==> IsBlank(lines[0]) && AllBlank(lines[1..])
  {
    assert forall i :: 0 < i < |lines| ==> lines[1..][i - 1] == lines[i];
    if AllBlank(lines[1..]) && IsBlank(lines[0]) {
      forall i | 0 <= i < |lines| ensures IsBlank(lines[i]) { if i > 0 { assert IsBlank(lines[1..][i - 1]); } }
    }
  }

  lemma {:induction false} BlankHasNoReturnBeforeInk(lines: seq<string>)
    requires AllBlank(lines)
    ensures !ReturnBeforeInk(lines)
  {
    if lines != [] {
      AllBlankFirst(lines);
      BlankHasNoReturnBeforeInk(lines[1..]);
    }
  }

  lemma {:induction false} DropBackReturns(lines: seq<string>)
    ensures DropBack(lines) == [] <==> AllBlank(lines)
    ensures ReturnBeforeLast(DropBack(lines)) <==> ReturnBeforeInk(lines)
  {
    if lines != [] {
      var later := DropBack(lines[1..]);
      DropBackReturns(lines[1..]);
      AllBlankFirst(lines);
      if later != [] {
        assert ([lines[0]] + later)[1..] == later;
      } else {
        BlankHasNoReturnBeforeInk(lines[1..]);
      }
    }
  }

  lemma {:induction false} TrimStartEnds(line: string)
    requires !IsBlank(line)
    ensures EndsInReturn(TrimStart(line)) <==> EndsInReturn(line)
  {
    TrimStartLeaves(line);
    assert line[..|line|] == line;
  }

  /** What a step writes ends in a return only inside a fence. */
  lemma {:induction false} WroteReturn(r: Rules, st: State, raw: string)
    requires Lawful(r)
    ensures var out := Step(r, st, raw).0;
      out != [] ==> (EndsInReturn(out[0]) <==> st.inFence && !r.marker(raw) && EndsInReturn(raw))
  {
    TrimEndLeaves(raw);
    assert IsTight(r.squeeze(raw));
  }

  /** The blank lines that the outer trim takes off the front have no returns. */
  lemma {:induction false} DropFrontReturns(r: Rules, st: State, lines: seq<string>)
    requires Lawful(r) && !st.inFence
    ensures var out := Written(r, st, lines); ReturnBeforeInk(DropFront(out)) <==> ReturnBeforeInk(out)
    decreases |lines|
  {
    if lines != [] {
      var (out, next) := Step(r, st, lines[0]);
      var later := Written(r, next, lines[1..]);
      StepAgain(r, st, lines[0]);
      WroteReturn(r, st, lines[0]);
      if out == [] {
        assert out + later == later;
        DropFrontReturns(r, next, lines[1..]);
      } else {
        assert (out + later)[1..] == later && (out + later)[0] == out[0];
        if IsBlank(out[0]) {
          assert !next.inFence by { BlankOutside(r, st, lines[0]); }
          DropFrontReturns(r, next, lines[1..]);
        } else {
          TrimStartEnds(out[0]);
          assert ([TrimStart(out[0])] + later)[1..] == later;
        }
      }
    }
  }

  lemma {:induction false} BlankOutside(r: Rules, st: State, raw: string)
    requires Lawful(r) && !st.inFence && Step(r, st, raw).0 != [] && IsBlank(Step(r, st, raw).0[0])
    ensures !Step(r, st, raw).1.inFence
  {
    assert r.marker(TrimEnd(raw)) == r.marker(raw);
  }

  /** Whether a line before the `k`th says it. */
  predicate Said(r: Rules, lines: seq<string>, k: nat, x: string)
    requires k <= |lines|
  {
    exists i :: 0 <= i < k && Speaks(r, lines, i) && Lower(r.squeeze(lines[i])) == x
  }

  lemma {:induction false} SaidNext(r: Rules, lines: seq<string>, k: nat, x: string)
    requires k < |lines|
    ensures Said(r, lines, k + 1, x) <==>
      Said(r, lines, k, x) || (Speaks(r, lines, k) && Lower(r.squeeze(lines[k])) == x)
  {
  }

  /** The state in front of a line, told by the lines before it. */
  lemma {:induction false} StateTells(r: Rules, lines: seq<string>, k: nat)
    requires Lawful(r) && k <= |lines|
    ensures var st := StateAt(r, START, lines, k);
      st.inFence == InFence(r, lines, k) && forall x :: x in st.seen <==> Said(r, lines, k, x)
  {
    if k > 0 {
      var st, next := StateAt(r, START, lines, k - 1), StateAt(r, START, lines, k);
      var said := Lower(r.squeeze(lines[k - 1]));
      StateTells(r, lines, k - 1);
      assert next.seen == if Speaks(r, lines, k - 1) then st.seen + {said}
        else st.seen by { SpeaksSeen(r, lines, k - 1); }
      forall x ensures x in next.seen <==> Said(r, lines, k, x) { SaidNext(r, lines, k - 1, x); }
    }
  }

  lemma {:induction false} SpeaksSeen(r: Rules, lines: seq<string>, k: nat)
    requires Lawful(r) && k < |lines| && StateAt(r, START, lines, k).inFence == InFence(r, lines, k)
    ensures var st, said := StateAt(r, START, lines, k), Lower(r.squeeze(lines[k]));
      Step(r, st, lines[k]).1.seen == if Speaks(r, lines, k) then st.seen + {said} else st.seen
  {
  }

  lemma {:induction false} InkIsWritten(r: Rules, lines: seq<string>, k: nat)
    requires Lawful(r) && k < |lines|
    ensures var out := Step(r, StateAt(r, START, lines, k), lines[k]).0;
      WritesInk(r, lines, k) <==> out != [] && !IsBlank(out[0])
  {
    var st, line := StateAt(r, START, lines, k), lines[k];
    StateTells(r, lines, k);
    assert r.marker(TrimEnd(line)) == r.marker(line);
    assert IsBlank("");
    assert r.squeeze(r.squeeze(line)) == r.squeeze(line);
  }

  lemma {:induction false} WrittenFrom(r: Rules, lines: seq<string>, k: nat)
    requires k < |lines|
    ensures var st := StateAt(r, START, lines, k);
      Written(r, st, lines[k..]) ==
        Step(r, st, lines[k]).0 + Written(r, StateAt(r, START, lines, k + 1), lines[k + 1..])
  {
    assert lines[k..][0] == lines[k] && lines[k..][1..] == lines[k + 1..];
  }

  /** Whether there is ink in what is written from a line on. */
  lemma {:induction false} InkFrom(r: Rules, lines: seq<string>, k: nat)
    requires Lawful(r) && k <= |lines|
    ensures AllBlank(Written(r, StateAt(r, START, lines, k), lines[k..])) <==>
      forall j :: k <= j < |lines| ==> !WritesInk(r, lines, j)
    decreases |lines| - k
  {
    if k < |lines| {
      var st := StateAt(r, START, lines, k);
      var out, later := Step(r, st, lines[k]).0, Written(r, StateAt(r, START, lines, k + 1), lines[k + 1..]);
      InkFrom(r, lines, k + 1);
      InkIsWritten(r, lines, k);
      WrittenFrom(r, lines, k);
      StepAgain(r, st, lines[k]);
      if out == [] {
        assert out + later == later;
      } else {
        assert (out + later)[0] == out[0] && (out + later)[1..] == later;
        AllBlankFirst(out + later);
      }
    }
  }

  lemma {:induction false} ReturnsFrom(r: Rules, lines: seq<string>, k: nat)
    requires Lawful(r) && k <= |lines|
    ensures ReturnBeforeInk(Written(r, StateAt(r, START, lines, k), lines[k..])) <==>
            exists i, j :: k <= i < j < |lines| && KeepsReturn(r, lines, i) && WritesInk(r, lines, j)
    decreases |lines| - k
  {
    if k < |lines| {
      var st := StateAt(r, START, lines, k);
      var out, later := Step(r, st, lines[k]).0, Written(r, StateAt(r, START, lines, k + 1), lines[k + 1..]);
      ReturnsFrom(r, lines, k + 1);
      InkFrom(r, lines, k + 1);
      StateTells(r, lines, k);
      WrittenFrom(r, lines, k);
      StepAgain(r, st, lines[k]);
      WroteReturn(r, st, lines[k]);
      if out == [] {
        assert out + later == later;
      } else {
        assert (out + later)[0] == out[0] && (out + later)[1..] == later;
      }
      assert KeepsReturn(r, lines, k) ==> out != [];
      FirstOrLater(r, lines, k);
    }
  }

  lemma {:induction false} FirstOrLater(r: Rules, lines: seq<string>, k: nat)
    requires k < |lines|
    ensures (exists i, j :: k <= i < j < |lines| && KeepsReturn(r, lines, i) && WritesInk(r, lines, j)) <==>
            || (KeepsReturn(r, lines, k) && exists j :: k + 1 <= j < |lines| && WritesInk(r, lines, j))
            || (exists i, j :: k + 1 <= i < j < |lines| && KeepsReturn(r, lines, i) && WritesInk(r, lines, j))
  {
  }

  /** A text of such lines has a return before a newline exactly when a line but the last ends in a return. */
  lemma {:induction false} ReturnsOfJoin(lines: seq<string>)
    requires forall i :: 0 <= i < |lines| ==> OneLine(lines[i])
    requires lines != [] ==> lines[|lines| - 1] != ""
    ensures HasReturnNewline(Join(lines)) <==> ReturnBeforeLast(lines)
  {
    NoReturnBeforeLast(lines);
    if HasReturnNewline(Join(lines)) {
      LinesLoseReturns(Join(lines));
      if !ReturnBeforeLast(lines) { LinesOfJoin(lines); }
    } else {
      NoReturnsInJoin(lines);
    }
  }

  /**
   * Normalising twice is normalising once exactly when no fenced line that still ends in a return has a line written
   * with ink after it: the first pass then leaves the return before a newline, and the second takes it for part of
   * the line end.
   */
  lemma {:induction false} NormalizedAgain(r: Rules, markdown: string)
    requires Lawful(r)
    ensures Normalized(r, Normalized(r, markdown)) == Normalized(r, markdown) <==> !ReturnIsLost(r, Lines(markdown))
    ensures HasReturnNewline(Normalized(r, markdown)) <==> ReturnIsLost(r, Lines(markdown))
  {
    var lines := Lines(markdown);
    var out := Written(r, START, lines);
    TextAgain(r, markdown);
    KeptIsResult(r, markdown);
    ReturnsOfJoin(Kept(r, markdown));
    DropBackReturns(DropFront(out));
    DropFrontReturns(r, START, lines);
    assert lines[0..] == lines && StateAt(r, START, lines, 0) == START;
    ReturnsFrom(r, lines, 0);
  }

  // ---------- what the result looks like ----------

  predicate IsProse(r: Rules, lines: seq<string>, k: nat)
    requires k < |lines|
  {
    !InFence(r, lines, k) && !r.marker(lines[k]) && lines[k] != ""
  }

  predicate IsGap(r: Rules, lines: seq<string>, k: nat)
    requires k < |lines|
  {
    !InFence(r, lines, k) && !r.marker(lines[k]) && lines[k] == ""
  }

  lemma {:induction false} StateAtLater(r: Rules, st: State, lines: seq<string>, k: nat)
    requires 0 < k <= |lines|
    ensures StateAt(r, st, lines, k) == StateAt(r, Step(r, st, lines[0]).1, lines[1..], k - 1)
  {
    if k > 1 { StateAtLater(r, st, lines, k - 1); }
  }

  lemma {:induction false} StableAt(r: Rules, st: State, lines: seq<string>, k: nat)
    requires Lawful(r) && Stable(r, st, lines) && k < |lines|
    ensures Step(r, StateAt(r, st, lines, k), lines[k]).0 == [lines[k]]
    decreases k
  {
    StableFirst(r, st, lines);
    if k > 0 {
      StateAtLater(r, st, lines, k);
      StableAt(r, Step(r, st, lines[0]).1, lines[1..], k - 1);
    }
  }

  lemma {:induction false} StateIsHistory(r: Rules, lines: seq<string>, k: nat)
    requires Lawful(r) && Stable(r, START, lines) && k <= |lines|
    ensures var st := StateAt(r, START, lines, k);
      && st.inFence == InFence(r, lines, k)
      && (forall i :: 0 <= i < k && IsProse(r, lines, i) ==> Lower(lines[i]) in st.seen)
      && (k > 0 && IsGap(r, lines, k - 1) ==> st.blank)
  {
    if k > 0 {
      StateIsHistory(r, lines, k - 1);
      StableAt(r, START, lines, k - 1);
      assert IsBlank("");
    }
  }

  /** No prose line comes twice, ignoring case, and no two blank lines are adjacent outside fences. */
  lemma {:induction false} ResultIsTidy(r: Rules, markdown: string)
    requires Lawful(r)
    ensures Normalized(r, markdown) == Join(Kept(r, markdown))
    ensures var lines := Kept(r, markdown);
      forall i, j :: 0 <= i < j < |lines| && IsProse(r, lines, i) && IsProse(r, lines, j) ==>
        Lower(lines[i]) != Lower(lines[j])
    ensures var lines := Kept(r, markdown);
      forall i :: 0 <= i < |lines| - 1 && IsGap(r, lines, i) ==> !IsGap(r, lines, i + 1)
  {
    KeptIsResult(r, markdown);
    var lines := Kept(r, markdown);
    forall j | 0 <= j < |lines|
      ensures forall i :: 0 <= i < j && IsProse(r, lines, i) && IsProse(r, lines, j) ==>
        Lower(lines[i]) != Lower(lines[j])
      ensures j > 0 && IsGap(r, lines, j - 1) ==> !IsGap(r, lines, j)
    {
      StateIsHistory(r, lines, j);
      StableAt(r, START, lines, j);
      assert IsBlank("");
    }
  }

  /** The lines inside fences, in order. */
  function Fenced(r: Rules, inFence: bool, lines: seq<string>): seq<string>
    decreases |lines|
  {
    if lines == [] then []
    else if r.marker(lines[0]) then Fenced(r, !inFence, lines[1..])
    else (if inFence then [lines[0]] else []) + Fenced(r, inFence, lines[1..])
  }

  /** Fenced lines are written verbatim, and nothing else becomes one. */
  lemma {:induction false} FencedVerbatim(r: Rules, st: State, lines: seq<string>)
    requires Lawful(r)
    ensures Fenced(r, st.inFence, Written(r, st, lines)) == Fenced(r, st.inFence, lines)
    decreases |lines|
  {
    if lines != [] {
      var (out, next) := Step(r, st, lines[0]);
      var later := Written(r, next, lines[1..]);
      FencedVerbatim(r, next, lines[1..]);
      StepAgain(r, st, lines[0]);
      assert r.marker(TrimEnd(lines[0])) == r.marker(lines[0]);
      assert IsBlank("");
      if out == [] {
        assert out + later == later;
        assert [] + Fenced(r, st.inFence, lines[1..]) == Fenced(r, st.inFence, lines[1..]);
      } else {
        assert (out + later)[1..] == later && (out + later)[0] == out[0];
      }
    }
  }

  // ---------- text without returns ----------

  predicate Lacks(s: string, c: char) {
    forall i :: 0 <= i < |s| ==> s[i] != c
  }

  lemma {:induction false} LinesLack(s: string, c: char)
    requires Lacks(s, c)
    ensures forall i :: 0 <= i < |Lines(s)| ==> Lacks(Lines(s)[i], c)
    decreases |s|
  {
    if s != [] && NewlineAt(s).Some? {
      LinesLack(s[NewlineAt(s).value + 1..], c);
    }
  }

  lemma {:induction false} WrittenLacks(r: Rules, st: State, lines: seq<string>, c: char)
    requires Lawful(r) && IsSpace(c) && c != ' '
    requires forall i :: 0 <= i < |lines| ==> Lacks(lines[i], c)
    ensures forall i :: 0 <= i < |Written(r, st, lines)| ==> Lacks(Written(r, st, lines)[i], c)
    decreases |lines|
  {
    if lines != [] {
      TrimEndLeaves(lines[0]);
      assert Spaced(r.squeeze(lines[0])) && Lacks(lines[0], c);
      var (out, next) := Step(r, st, lines[0]);
      assert forall i :: 0 <= i < |out| ==> Lacks(out[i], c);
      WrittenLacks(r, next, lines[1..], c);
    }
  }

  lemma {:induction false} DroppedLack(lines: seq<string>, c: char)
    requires forall i :: 0 <= i < |lines| ==> Lacks(lines[i], c)
    ensures forall i :: 0 <= i < |DropBack(lines)| ==> Lacks(DropBack(lines)[i], c)
    ensures forall i :: 0 <= i < |DropFront(lines)| ==> Lacks(DropFront(lines)[i], c)
  {
    if lines != [] {
      DroppedLack(lines[1..], c);
      TrimEndLeaves(lines[0]);
      TrimStartLeaves(lines[0]);
    }
  }

  lemma {:induction false} JoinLacks(lines: seq<string>, c: char)
    requires c != '\n' && forall i :: 0 <= i < |lines| ==> Lacks(lines[i], c)
    ensures Lacks(Join(lines), c)
  {
    if |lines| > 1 { JoinLacks(lines[1..], c); }
  }

  /** Normalising is idempotent on text without carriage returns. */
  lemma {:induction false} IdempotentWithoutReturns(r: Rules, markdown: string)
    requires Lawful(r) && Lacks(markdown, '\r')
    ensures Normalized(r, Normalized(r, markdown)) == Normalized(r, markdown)
  {
    var text, out := Normalized(r, markdown), Written(r, START, Lines(markdown));
    LinesLack(markdown, '\r');
    WrittenLacks(r, START, Lines(markdown), '\r');
    DroppedLack(out, '\r');
    DroppedLack(DropFront(out), '\r');
    KeptIsResult(r, markdown);
    JoinLacks(Kept(r, markdown), '\r');
    forall i: nat | i + 2 <= |text| ensures !OccursAt(text, "\r\n", i) { assert text[i..i + 2][0] == text[i]; }
    TextAgain(r, markdown);
  }

  // ---------- the rules of the normaliser ----------

  /** The length of the word at the start of the text. */
  function WordLength(s: string): (n: nat)
    ensures n <= |s| && (forall i :: 0 <= i < n ==> !IsSpace(s[i])) && (n < |s| ==> IsSpace(s[n]))
  {
    if s == [] || IsSpace(s[0]) then 0 else
      var n := WordLength(s[1..]);
      assert forall i :: 1 <= i < n + 1 ==> s[i] == s[1..][i - 1];
      n + 1
  }

  /** `split_whitespace`. */
  function Words(s: string): seq<string>
    decreases |s|
  {
    if s == [] then []
    else if IsSpace(s[0]) then Words(s[1..])
    else [s[..WordLength(s)]] + Words(s[WordLength(s)..])
  }

  function JoinWords(words: seq<string>): string {
    if words == [] then ""
    else if |words| == 1 then words[0]
    else words[0] + " " + JoinWords(words[1..])
  }

  /** Only single spaces between the words, none outside. */
  function Squeeze(s: string): string { JoinWords(Words(s)) }

  predicate IsWord(s: string) {
    s != "" && forall i :: 0 <= i < |s| ==> !IsSpace(s[i])
  }

  predicate AllWords(words: seq<string>) {
    forall i :: 0 <= i < |words| ==> IsWord(words[i])
  }

  lemma {:induction false} WordsAreWords(s: string)
    ensures AllWords(Words(s))
    ensures Words(s) == [] <==> IsBlank(s)
    ensures |Squeeze(s)| <= |s|
    ensures s != "" && !IsSpace(s[0]) ==> Words(s) != [] && Words(s)[0] == s[..WordLength(s)]
    decreases |s|
  {
    if s == [] {
    } else if IsSpace(s[0]) {
      WordsAreWords(s[1..]);
      assert forall i :: 1 <= i < |s| ==> s[i] == s[1..][i - 1];
    } else {
      var n := WordLength(s);
      var rest := s[n..];
      WordsAreWords(rest);
      if rest != [] {
        assert Words(rest) == Words(rest[1..]);
        WordsAreWords(rest[1..]);
        assert Words(s)[1..] == Words(rest);
      }
    }
  }

  lemma {:induction false} WordThen(word: string, rest: string)
    requires IsWord(word) && (rest == "" || IsSpace(rest[0]))
    ensures WordLength(word + rest) == |word| && Words(word + rest) == [word] + Words(rest)
  {
    var s := word + rest;
    assert forall i :: 0 <= i < |word| ==> s[i] == word[i];
    if rest != "" { assert s[|word|] == rest[0]; }
    assert s[..|word|] == word && s[|word|..] == rest;
  }

  lemma {:induction false} WordsOfJoined(words: seq<string>)
    requires AllWords(words)
    ensures Words(JoinWords(words)) == words
    ensures words != [] ==> JoinWords(words) != "" && words[0] <= JoinWords(words)
    ensures IsTight(JoinWords(words)) && Spaced(JoinWords(words))
  {
    if words != [] {
      var first, later := words[0], words[1..];
      assert IsWord(first);
      if later == [] {
        WordThen(first, "");
        assert first + "" == first;
      } else {
        WordsOfJoined(later);
        var rest := " " + JoinWords(later);
        assert JoinWords(words) == first + rest;
        WordThen(first, rest);
        assert rest[1..] == JoinWords(later);
        assert Words(rest) == Words(rest[1..]);
      }
    }
  }

  const FENCE := "```"

  predicate IsMarker(s: string) { FENCE <= TrimStart(TrimEnd(s)) }

  predicate IsNavigationNoise(line: string) {
    var lower := Lower(line);
    || "privacy policy" <= lower || "cookie" <= lower || "terms of service" <= lower
    || Find(lower, "share on ").Some? || Find(lower, "follow us").Some?
  }

  function TheRules(): Rules {
    Rules(s => IsMarker(s), s => Squeeze(TrimEnd(s)), s => IsNavigationNoise(s))
  }

  lemma {:induction false} TrimsCommute(s: string)
    ensures TrimEnd(TrimStart(s)) == TrimStart(TrimEnd(s))
  {
    var t := TrimStart(s);
    TrimStartLeaves(s);
    var p := s[..|s| - |t|];
    assert s == p + t;
    if t == [] {
      TrimEndBlank([], p);
      assert [] + p == p && p + t == p;
    } else {
      assert !IsBlank(t);
      TrimEndLater(p, t);
      TrimEndLeaves(t);
      assert !IsBlank(TrimEnd(t)) by { assert TrimEnd(t)[0] == t[0] || TrimEnd(t) == []; TrimEndNotBlank(t); }
      TrimStartBlank(p, TrimEnd(t));
    }
  }

  lemma {:induction false} TrimEndNotBlank(s: string)
    ensures TrimEnd(s) == [] <==> IsBlank(s)
  {
    TrimEndLeaves(s);
  }

  lemma {:induction false} MarkerLaws(s: string)
    ensures IsMarker(TrimEnd(s)) == IsMarker(s) == IsMarker(TrimStart(s))
    ensures IsMarker(s) ==> !IsBlank(s)
  {
    TrimEndTwice(s);
    TrimsCommute(s);
    TrimsCommute(TrimStart(s));
    TrimStartLeaves(s);
    TrimStartLeaves(TrimStart(s));
    TrimEndNotBlank(s);
  }

  lemma {:induction false} SqueezeLaws(s: string)
    ensures var t := Squeeze(TrimEnd(s));
      && (t == "" <==> IsBlank(s)) && Squeeze(TrimEnd(t)) == t && IsTight(t) && Spaced(t) && |t| <= |s|
  {
    var e := TrimEnd(s);
    TrimEndNotBlank(s);
    TrimEndLeaves(s);
    WordsAreWords(e);
    WordsOfJoined(Words(e));
    TrimEndNotBlank(e);
    TrimEndTwice(s);
  }

  /** Squeezing makes no fence marker. */
  lemma {:induction false} SqueezedIsNoMarker(s: string)
    requires !IsMarker(s)
    ensures !IsMarker(Squeeze(TrimEnd(s)))
  {
    var e := TrimEnd(s);
    var t, b := Squeeze(e), TrimStart(e);
    SqueezeLaws(s);
    TrimStartLeaves(e);
    SkipSpaces(e);
    WordsAreWords(b);
    WordsOfJoined(Words(b));
    if t != "" {
      assert TrimEnd(t) == t && TrimStart(t) == t;
      var first := Words(b)[0];
      assert first == b[..WordLength(b)];
    }
  }

  lemma {:induction false} SkipSpaces(s: string)
    ensures Words(TrimStart(s)) == Words(s)
  {
    if s != [] && IsSpace(s[0]) { SkipSpaces(s[1..]); }
  }

  lemma {:induction false} RulesAreLawful()
    ensures Lawful(TheRules())
  {
    var r := TheRules();
    forall s ensures r.marker(TrimEnd(s)) == r.marker(s) == r.marker(TrimStart(s)) &&
      (r.marker(s) ==> !IsBlank(s)) { MarkerLaws(s); }
    forall s
      ensures (r.squeeze(s) == "" <==> IsBlank(s)) && r.squeeze(r.squeeze(s)) == r.squeeze(s)
      ensures IsTight(r.squeeze(s)) && Spaced(r.squeeze(s)) && |r.squeeze(s)| <= |s|
    { SqueezeLaws(s); }
    forall s | !r.marker(s) ensures !r.marker(r.squeeze(s)) { SqueezedIsNoMarker(s); }
  }

  /**
   * The normaliser with its own rules: a second pass changes nothing exactly when no fenced line with ink after it
   * keeps a return.
   */
  lemma {:induction false} MarkdownTwice(markdown: string)
    ensures var once := Normalized(TheRules(), markdown);
      && (Normalized(TheRules(), once) == once <==> !ReturnIsLost(TheRules(), Lines(markdown)))
      && (Lacks(markdown, '\r') ==> Normalized(TheRules(), once) == once)
  {
    RulesAreLawful();
    NormalizedAgain(TheRules(), markdown);
    if Lacks(markdown, '\r') { IdempotentWithoutReturns(TheRules(), markdown); }
  }

  lemma {:induction false} LinesCons(line: string, rest: string)
    requires OneLine(line)
    ensures Lines(line + ("\n" + rest)) == [StripReturn(line)] + Lines(rest)
  {
    var s := line + ("\n" + rest);
    NewlineFirst(line, "\n" + rest);
    assert s[..|line|] == line && s[|line| + 1..] == rest;
  }

  predicate IsFenceLine(r: Rules, fence: string) {
    r.marker(fence) && fence != "" && IsTight(fence) && OneLine(fence) && !EndsInReturn(fence)
  }

  function Fence(fence: string, code: string): string {
    fence + ("\n" + (code + ("\n" + fence)))
  }

  lemma {:induction false} FenceLines(fence: string, code: string)
    requires fence != "" && OneLine(fence) && !EndsInReturn(fence) && OneLine(code)
    ensures Lines(Fence(fence, code)) == [fence, StripReturn(code), fence]
  {
    NewlineFirst(fence, "");
    assert fence + "" == fence && Lines(fence) == [fence];
    LinesCons(code, fence);
    LinesCons(fence, code + ("\n" + fence));
  }

  lemma {:induction false} FenceWritten(r: Rules, fence: string, code: string)
    requires Lawful(r) && IsFenceLine(r, fence) && !r.marker(code)
    ensures Written(r, START, [fence, code, fence]) == [fence, code, fence]
  {
    var st := START.(inFence := true);
    assert TrimEnd(fence) == fence;
    assert [fence, code, fence][1..] == [code, fence] && [code, fence][1..] == [fence] && [fence][1..] == [];
    assert Written(r, START, []) == [] && Step(r, st, fence) == ([fence], START);
    assert Written(r, st, [fence]) == [fence];
    assert Step(r, st, code) == ([code], st);
    assert Written(r, st, [code, fence]) == [code, fence];
  }

  lemma {:induction false} FenceJoined(fence: string, code: string)
    requires fence != "" && IsTight(fence)
    ensures Join([fence, code, fence]) == Fence(fence, code) && Trim(Fence(fence, code)) == Fence(fence, code)
  {
    assert [fence, code, fence][1..] == [code, fence] && [code, fence][1..] == [fence];
    assert Join([code, fence]) == code + ("\n" + fence);
    var text := Fence(fence, code);
    assert text[0] == fence[0] && text[|text| - 1] == fence[|fence| - 1];
    TrimKeeps(text);
  }

  /** A fenced line that ended in two returns keeps one, and a second pass takes that one too. */
  lemma {:induction false} FencedReturnIsLost(r: Rules, fence: string, code: string)
    requires Lawful(r) && IsFenceLine(r, fence) && !r.marker(code + "\r") && OneLine(code)
    ensures Normalized(r, Fence(fence, code + "\r\r")) == Fence(fence, code + "\r")
    ensures Normalized(r, Fence(fence, code + "\r")) != Fence(fence, code + "\r")
  {
    var kept := code + "\r";
    FenceLines(fence, code + "\r\r");
    assert StripReturn(code + "\r\r") == kept;
    FenceWritten(r, fence, kept);
    FenceJoined(fence, kept);
    var text := Fence(fence, kept);
    assert text[|fence| + |kept|..|fence| + |kept| + 2] == "\r\n";
    assert OccursAt(text, "\r\n", |fence| + |kept|);
    NormalizedAgain(r, Fence(fence, code + "\r\r"));
  }
}

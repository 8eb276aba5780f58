/** Cutting a document into sections and chunks (crates/termlm-indexer/src/chunk.rs). */
module Chunker {
  import opened Wrappers
  import opened Ordering
  import opened Text
  import opened Chunks
  import Utf8

  // ---------- parts one after another ----------

  function Glue(parts: seq<string>): string {
    if parts == [] then [] else parts[0] + Glue(parts[1..])
  }

  lemma {:induction false} GlueConcat(a: seq<string>, b: seq<string>)
    ensures Glue(a + b) == Glue(a) + Glue(b)
  {
    if a == [] {
      assert a + b == b;
    } else {
      assert (a + b)[1..] == a[1..] + b;
      GlueConcat(a[1..], b);
    }
  }

  // ---------- sections ----------

  datatype Section = Section(name: string, body: string)

  predicate IsHeading(line: string) {
    line != "" && line[0] != ' ' && forall i :: 0 <= i < |line| ==> !('a' <= line[i] <= 'z')
  }

  /** The sections still to come, when a heading may be open and `buf` holds its text so far. */
  function SectionsFrom(lines: seq<string>, name: Option<string>, buf: string): seq<Section> {
    if lines == [] then
      if name.Some? then [Section(name.value, Trim(buf))] else []
    else if IsHeading(lines[0]) then
      if name.Some? then [Section(name.value, Trim(buf))] + SectionsFrom(lines[1..], Some(Trim(lines[0])), "")
      else SectionsFrom(lines[1..], Some(Trim(lines[0])), buf)
    else SectionsFrom(lines[1..], name, buf + lines[0] + "\n")
  }

  method SplitSections(raw: string) returns (sections: seq<Section>)
    ensures sections == SectionsFrom(Lines(raw), None, "")
  {
    sections := [];
    var name: Option<string>, buf := None, "";
    var lines := Lines(raw);
    ghost var all := SectionsFrom(lines, None, "");
    assert lines[0..] == lines;
    for i := 0 to |lines|
      invariant sections + SectionsFrom(lines[i..], name, buf) == all
    {
      var line := lines[i];
      assert lines[i..][0] == line && lines[i..][1..] == lines[i + 1..];
      if IsHeading(line) {
        if name.Some? {
          sections := sections + [Section(name.value, Trim(buf))];
          buf := "";
        }
        name := Some(Trim(line));
      } else {
        buf := buf + line + "\n";
      }
    }
    if name.Some? {
      sections := sections + [Section(name.value, Trim(buf))];
    }
  }

  function HeadingsIn(lines: seq<string>): seq<string> {
    if lines == [] then [] else (if IsHeading(lines[0]) then [Trim(lines[0])] else []) + HeadingsIn(lines[1..])
  }

  /** The text of the lines that are no headings. */
  function TextIn(lines: seq<string>): string {
    if lines == [] then [] else (if IsHeading(lines[0]) then [] else lines[0] + "\n") + TextIn(lines[1..])
  }

  function Names(sections: seq<Section>): seq<string> {
    if sections == [] then [] else [sections[0].name] + Names(sections[1..])
  }

  function Bodies(sections: seq<Section>): seq<string> {
    if sections == [] then [] else [sections[0].body] + Bodies(sections[1..])
  }

  lemma {:induction false} SectionsNamed(lines: seq<string>, name: Option<string>, buf: string)
    ensures Names(SectionsFrom(lines, name, buf)) == (if name.Some? then [name.value] else []) + HeadingsIn(lines)
  {
    if lines != [] {
      if IsHeading(lines[0]) {
        var next := Some(Trim(lines[0]));
        SectionsNamed(lines[1..], next, if name.Some? then "" else buf);
        if name.Some? {
          var first := Section(name.value, Trim(buf));
          assert ([first] + SectionsFrom(lines[1..], next, ""))[1..] == SectionsFrom(lines[1..], next, "");
        }
      } else {
        SectionsNamed(lines[1..], name, buf + lines[0] + "\n");
        assert HeadingsIn(lines) == HeadingsIn(lines[1..]);
      }
    }
  }

  lemma {:induction false} InkOfBodies(first: Section, later: seq<Section>)
    ensures Ink(Glue(Bodies([first] + later))) == Ink(first.body) + Ink(Glue(Bodies(later)))
  {
    assert ([first] + later)[1..] == later;
    assert ([first.body] + Bodies(later))[1..] == Bodies(later);
    InkConcat(first.body, Glue(Bodies(later)));
  }

  lemma {:induction false} InkOfThree(a: string, b: string, c: string)
    ensures Ink(a + b + c) == Ink(a) + (Ink(b) + Ink(c))
  {
    InkConcat(a + b, c);
    InkConcat(a, b);
  }

  lemma {:induction false} InkOfText(line: string, rest: seq<string>, buf: string)
    requires !IsHeading(line)
    ensures Ink(buf + line + "\n") + Ink(TextIn(rest)) == Ink(buf) + Ink(TextIn([line] + rest))
  {
    assert ([line] + rest)[1..] == rest;
    InkOfThree(buf, line, "\n");
    InkOfThree(line, "\n", TextIn(rest));
    assert TextIn([line] + rest) == line + "\n" + TextIn(rest);
  }

  /** The sections hold the ink of the buffer and of the text, unless no heading is open or to come. */
  ghost predicate HoldText(lines: seq<string>, name: Option<string>, buf: string) {
    if name == None && HeadingsIn(lines) == [] then SectionsFrom(lines, name, buf) == []
    else Ink(Glue(Bodies(SectionsFrom(lines, name, buf)))) == Ink(buf) + Ink(TextIn(lines))
  }

  lemma {:induction false} HoldAtEnd(name: Option<string>, buf: string)
    ensures HoldText([], name, buf)
  {
    if name.Some? {
      TrimKeepsInk(buf);
      InkOfBodies(Section(name.value, Trim(buf)), []);
    }
  }

  lemma {:induction false} HoldAtHeading(lines: seq<string>, name: Option<string>, buf: string)
    requires lines != [] && IsHeading(lines[0])
    requires HoldText(lines[1..], Some(Trim(lines[0])), if name.Some? then "" else buf)
    ensures HoldText(lines, name, buf)
  {
    var rest, next := lines[1..], Some(Trim(lines[0]));
    assert HeadingsIn(lines) != [] && TextIn(lines) == TextIn(rest);
    if name.Some? {
      var first := Section(name.value, Trim(buf));
      assert SectionsFrom(lines, name, buf) == [first] + SectionsFrom(rest, next, "");
      TrimKeepsInk(buf);
      InkOfBodies(first, SectionsFrom(rest, next, ""));
    } else {
      assert SectionsFrom(lines, name, buf) == SectionsFrom(rest, next, buf);
    }
  }

  lemma {:induction false} HoldAtText(lines: seq<string>, name: Option<string>, buf: string)
    requires lines != [] && !IsHeading(lines[0])
    requires HoldText(lines[1..], name, buf + lines[0] + "\n")
    ensures HoldText(lines, name, buf)
  {
    var line, rest := lines[0], lines[1..];
    assert SectionsFrom(lines, name, buf) == SectionsFrom(rest, name, buf + line + "\n");
    InkOfText(line, rest, buf);
    assert lines == [line] + rest && HeadingsIn(lines) == HeadingsIn(rest);
  }

  lemma {:induction false} SectionsHoldText(lines: seq<string>, name: Option<string>, buf: string)
    ensures HoldText(lines, name, buf)
    decreases |lines|
  {
    if lines == [] {
      HoldAtEnd(name, buf);
    } else if IsHeading(lines[0]) {
      SectionsHoldText(lines[1..], Some(Trim(lines[0])), if name.Some? then "" else buf);
      HoldAtHeading(lines, name, buf);
    } else {
      SectionsHoldText(lines[1..], name, buf + lines[0] + "\n");
      HoldAtText(lines, name, buf);
    }
  }

  /**
   * One section for each heading, in order, and together their bodies hold the ink of every line that is no heading:
   * that is so exactly when there is a heading at all or there is no such ink.
   */
  lemma {:induction false} SectionsConserveText(raw: string)
    ensures var lines, sections := Lines(raw), SectionsFrom(Lines(raw), None, "");
      && Names(sections) == HeadingsIn(lines)
      && (Ink(Glue(Bodies(sections))) == Ink(TextIn(lines)) <==> HeadingsIn(lines) != [] || IsBlank(TextIn(lines)))
  {
    SectionsNamed(Lines(raw), None, "");
    SectionsHoldText(Lines(raw), None, "");
    BlankHasNoInk(TextIn(Lines(raw)));
  }

  // ---------- which lines a section holds ----------

  /** A heading and the lines up to the next one. */
  datatype Group = Group(heading: string, lines: seq<string>)

  /** The lines before the first heading, and the groups after it. */
  function Grouped(lines: seq<string>): (seq<string>, seq<Group>) {
    if lines == [] then ([], []) else
      var (preamble, groups) := Grouped(lines[1..]);
      if IsHeading(lines[0]) then ([], [Group(lines[0], preamble)] + groups) else ([lines[0]] + preamble, groups)
  }

  function LinesText(lines: seq<string>): string {
    if lines == [] then [] else lines[0] + "\n" + LinesText(lines[1..])
  }

  function GroupSections(groups: seq<Group>): seq<Section> {
    if groups == [] then [] else
      [Section(Trim(groups[0].heading), Trim(LinesText(groups[0].lines)))] + GroupSections(groups[1..])
  }

  /** With the preamble given to the first group. */
  function GroupedSections(preamble: string, groups: seq<Group>): seq<Section> {
    if groups == [] then [] else
      [Section(Trim(groups[0].heading), Trim(preamble + LinesText(groups[0].lines)))] + GroupSections(groups[1..])
  }

  lemma {:induction false} SectionsGroup(lines: seq<string>, name: Option<string>, buf: string)
    ensures AreGrouped(lines, name, buf)
    decreases |lines|
  {
    if lines == [] {
      assert buf + "" == buf;
    } else if IsHeading(lines[0]) {
      SectionsGroup(lines[1..], Some(Trim(lines[0])), if name.Some? then "" else buf);
      GroupAtHeading(lines, name, buf);
    } else {
      SectionsGroup(lines[1..], name, buf + lines[0] + "\n");
      GroupAtText(lines, name, buf);
    }
  }

  ghost predicate AreGrouped(lines: seq<string>, name: Option<string>, buf: string) {
    var (preamble, groups) := Grouped(lines);
    SectionsFrom(lines, name, buf) ==
    if name.Some? then [Section(name.value, Trim(buf + LinesText(preamble)))] + GroupSections(groups)
    else GroupedSections(buf + LinesText(preamble), groups)
  }

  lemma {:induction false} GroupAtHeading(lines: seq<string>, name: Option<string>, buf: string)
    requires lines != [] && IsHeading(lines[0]) &&
      AreGrouped(lines[1..], Some(Trim(lines[0])), if name.Some? then "" else buf)
    ensures AreGrouped(lines, name, buf)
  {
    var line := lines[0];
    var (preamble, groups) := Grouped(lines[1..]);
    var all := [Group(line, preamble)] + groups;
    assert buf + "" == buf && "" + LinesText(preamble) == LinesText(preamble);
    assert Grouped(lines) == ([], all) && all[1..] == groups;
  }

  lemma {:induction false} GroupAtText(lines: seq<string>, name: Option<string>, buf: string)
    requires lines != [] && !IsHeading(lines[0]) && AreGrouped(lines[1..], name, buf + lines[0] + "\n")
    ensures AreGrouped(lines, name, buf)
  {
    var line := lines[0];
    var (preamble, groups) := Grouped(lines[1..]);
    assert Grouped(lines) == ([line] + preamble, groups) && ([line] + preamble)[1..] == preamble;
    assert buf + line + "\n" + LinesText(preamble) == buf + LinesText([line] + preamble);
  }

  /**
   * Each section is a heading with the lines up to the next one; the lines before the first heading join the first
   * section.
   */
  lemma {:induction false} SectionsAreGroups(raw: string)
    ensures var (preamble, groups) := Grouped(Lines(raw));
      SectionsFrom(Lines(raw), None, "") == GroupedSections(LinesText(preamble), groups)
  {
    var (preamble, groups) := Grouped(Lines(raw));
    SectionsGroup(Lines(raw), None, "");
    assert "" + LinesText(preamble) == LinesText(preamble);
  }

  // ---------- splitting a large text ----------

  /** Any measure of length that adds up, such as the number of UTF-8 bytes. */
  ghost predicate IsMeasure(len: string -> nat) {
    && (forall a, b :: len(a + b) == len(a) + len(b))
    && len("\n\n") == 2
  }

  predicate EndsSentence(c: char) { c == '.' || c == '!' || c == '?' || c == ';' }

  /** `split("\n\n")`. */
  function Paragraphs(text: string): (r: seq<string>)
    ensures r != []
    decreases |text|
  {
    match Find(text, "\n\n")
    case None => [text]
    case Some(i) => [text[..i]] + Paragraphs(text[i + 2..])
  }

  function SentencesFrom(text: string, current: string): seq<string> {
    if text == [] then if IsBlank(current) then [] else [Trim(current)]
    else
      var more := current + [text[0]];
      if EndsSentence(text[0]) then [Trim(more)] + SentencesFrom(text[1..], "") else SentencesFrom(text[1..], more)
  }

  method SplitSentences(paragraph: string) returns (out: seq<string>)
    ensures out == SentencesFrom(paragraph, "")
  {
    out := [];
    var current := "";
    ghost var all := SentencesFrom(paragraph, "");
    assert paragraph[0..] == paragraph;
    for i := 0 to |paragraph|
      invariant out + SentencesFrom(paragraph[i..], current) == all
    {
      var ch := paragraph[i];
      assert paragraph[i..][0] == ch && paragraph[i..][1..] == paragraph[i + 1..];
      current := current + [ch];
      if EndsSentence(ch) {
        out := out + [Trim(current)];
        current := "";
      }
    }
    if !IsBlank(current) {
      out := out + [Trim(current)];
    }
  }

  function PartsOf(len: string -> nat, maxLen: nat, para: string): seq<string> {
    if len(para) > maxLen then SentencesFrom(para, "") else [para]
  }

  function AllParts(len: string -> nat, maxLen: nat, paras: seq<string>): seq<string> {
    if paras == [] then [] else PartsOf(len, maxLen, paras[0]) + AllParts(len, maxLen, paras[1..])
  }

  /** Fill the current chunk with parts until the next would not fit. */
  function Pack(len: string -> nat, maxLen: nat, parts: seq<string>, current: string): seq<string> {
    if parts == [] then if IsBlank(current) then [] else [Trim(current)]
    else if len(current) + len(parts[0]) + 2 > maxLen && current != "" then
      [Trim(current)] + Pack(len, maxLen, parts[1..], parts[0] + "\n\n")
    else Pack(len, maxLen, parts[1..], current + parts[0] + "\n\n")
  }

  function LargeTextSplit(len: string -> nat, maxLen: nat, text: string): seq<string> {
    Pack(len, maxLen, AllParts(len, maxLen, Paragraphs(text)), "")
  }

  method SplitLargeText(len: string -> nat, text: string, maxLen: nat) returns (out: seq<string>)
    ensures out == LargeTextSplit(len, maxLen, text)
  {
    out := [];
    var current := "";
    var paras := Paragraphs(text);
    ghost var all := LargeTextSplit(len, maxLen, text);
    assert paras[0..] == paras;
    for p := 0 to |paras|
      invariant out + Pack(len, maxLen, AllParts(len, maxLen, paras[p..]), current) == all
    {
      assert paras[p..][0] == paras[p] && paras[p..][1..] == paras[p + 1..];
      var parts: seq<string>;
      if len(paras[p]) > maxLen {
        parts := SplitSentences(paras[p]);
      } else {
        parts := [paras[p]];
      }
      ghost var later := AllParts(len, maxLen, paras[p + 1..]);
      assert parts + later == AllParts(len, maxLen, paras[p..]);
      out, current := PackParts(len, maxLen, parts, out, current, later);
    }
    assert paras[|paras|..] == [] && AllParts(len, maxLen, []) == [];
    if !IsBlank(current) {
      out := out + [Trim(current)];
    }
  }

  /** The inner loop, over the parts of one paragraph. */
  method PackParts(len: string -> nat, maxLen: nat, parts: seq<string>, before: seq<string>, open: string,
      ghost later: seq<string>)
    returns (out: seq<string>, current: string)
    ensures out + Pack(len, maxLen, later, current) == before + Pack(len, maxLen, parts + later, open)
  {
    out, current := before, open;
    assert parts[0..] == parts;
    for k := 0 to |parts|
      invariant out + Pack(len, maxLen, parts[k..] + later, current) == before + Pack(len, maxLen, parts + later, open)
    {
      var part := parts[k];
      assert (parts[k..] + later)[0] == part && (parts[k..] + later)[1..] == parts[k + 1..] + later;
      if len(current) + len(part) + 2 > maxLen && current != "" {
        out := out + [Trim(current)];
        current := "";
      }
      assert "" + part + "\n\n" == part + "\n\n";
      current := current + part + "\n\n";
    }
    assert parts[|parts|..] + later == later;
  }

  // ---------- nothing is lost ----------

  lemma {:induction false} LastKeepsInk(current: string)
    ensures Ink(Glue(if IsBlank(current) then [] else [Trim(current)])) == Ink(current)
  {
    TrimKeepsInk(current);
    BlankHasNoInk(current);
    assert Glue([Trim(current)]) == Trim(current) + Glue([]) == Trim(current);
  }

  lemma {:induction false} InkMoves(current: string, text: string)
    requires text != ""
    ensures Ink(current + [text[0]]) + Ink(text[1..]) == Ink(current) + Ink(text)
  {
    assert text == [text[0]] + text[1..];
    InkConcat(current, [text[0]]);
    InkConcat([text[0]], text[1..]);
  }

  ghost predicate KeepsInk(text: string, current: string) {
    Ink(Glue(SentencesFrom(text, current))) == Ink(current) + Ink(text)
  }

  lemma {:induction false} InkAtEnd(text: string, current: string)
    requires text != "" && EndsSentence(text[0]) && KeepsInk(text[1..], "")
    ensures KeepsInk(text, current)
  {
    var rest, more := text[1..], current + [text[0]];
    var later := SentencesFrom(rest, "");
    calc {
      Ink(Glue(SentencesFrom(text, current)));
      Ink(Glue([Trim(more)] + later));
      { SentenceEnded(more, later); }
      Ink(more) + Ink(Glue(later));
      { assert Ink("") == "" && "" + Ink(rest) == Ink(rest); }
      Ink(more) + Ink(rest);
      { InkMoves(current, text); }
      Ink(current) + Ink(text);
    }
  }

  lemma {:induction false} InkGoesOn(text: string, current: string)
    requires text != "" && !EndsSentence(text[0]) && KeepsInk(text[1..], current + [text[0]])
    ensures KeepsInk(text, current)
  {
    InkMoves(current, text);
    assert SentencesFrom(text, current) == SentencesFrom(text[1..], current + [text[0]]);
  }

  lemma {:induction false} SentencesKeepInk(text: string, current: string)
    ensures KeepsInk(text, current)
    decreases |text|
  {
    if text == [] {
      LastKeepsInk(current);
    } else if EndsSentence(text[0]) {
      SentencesKeepInk(text[1..], "");
      InkAtEnd(text, current);
    } else {
      SentencesKeepInk(text[1..], current + [text[0]]);
      InkGoesOn(text, current);
    }
  }

  lemma {:induction false} SentenceEnded(more: string, later: seq<string>)
    ensures Ink(Glue([Trim(more)] + later)) == Ink(more) + Ink(Glue(later))
  {
    TrimKeepsInk(more);
    InkOfGlue(Trim(more), later);
  }

  lemma {:induction false} InkOfGlue(first: string, later: seq<string>)
    ensures Ink(Glue([first] + later)) == Ink(first) + Ink(Glue(later))
  {
    assert ([first] + later)[1..] == later;
    InkConcat(first, Glue(later));
  }

  lemma {:induction false} InkAround(text: string, i: nat)
    requires Find(text, "\n\n") == Some(i)
    ensures Ink(text) == Ink(text[..i]) + Ink(text[i + 2..])
  {
    FindIsLeftmost(text, "\n\n");
    assert text == text[..i] + text[i..i + 2] + text[i + 2..];
    InkOfThree(text[..i], "\n\n", text[i + 2..]);
    BlankHasNoInk("\n\n");
  }

  lemma {:induction false} ParagraphsKeepInk(text: string)
    ensures Ink(Glue(Paragraphs(text))) == Ink(text)
    decreases |text|
  {
    match Find(text, "\n\n")
    case None => InkOfGlue(text, []); assert Ink(Glue([])) == [];
    case Some(i) =>
      var rest := Paragraphs(text[i + 2..]);
      ParagraphsKeepInk(text[i + 2..]);
      InkOfGlue(text[..i], rest);
      InkAround(text, i);
      assert Paragraphs(text) == [text[..i]] + rest;
  }

  lemma {:induction false} PartsKeepInk(len: string -> nat, maxLen: nat, paras: seq<string>)
    ensures Ink(Glue(AllParts(len, maxLen, paras))) == Ink(Glue(paras))
  {
    if paras != [] {
      var parts, later := PartsOf(len, maxLen, paras[0]), AllParts(len, maxLen, paras[1..]);
      PartsKeepInk(len, maxLen, paras[1..]);
      SentencesKeepInk(paras[0], "");
      InkOfGlue(paras[0], []);
      assert [paras[0]] + [] == [paras[0]];
      GlueConcat(parts, later);
      InkConcat(Glue(parts), Glue(later));
      InkConcat(paras[0], Glue(paras[1..]));
    }
  }

  lemma {:induction false} InkOfPart(current: string, part: string, rest: seq<string>)
    ensures Ink(current + part + "\n\n") + Ink(Glue(rest)) == Ink(current) + Ink(Glue([part] + rest))
  {
    InkOfGlue(part, rest);
    BlankHasNoInk("\n\n");
    InkOfThree(current, part, "\n\n");
  }

  lemma {:induction false} PackKeepsInk(len: string -> nat, maxLen: nat, parts: seq<string>, current: string)
    ensures Ink(Glue(Pack(len, maxLen, parts, current))) == Ink(current) + Ink(Glue(parts))
    decreases |parts|
  {
    if parts == [] {
      LastKeepsInk(current);
    } else {
      var part, rest := parts[0], parts[1..];
      assert parts == [part] + rest;
      if len(current) + len(part) + 2 > maxLen && current != "" {
        PackKeepsInk(len, maxLen, rest, part + "\n\n");
        InkOfFlush(part, rest, current, Pack(len, maxLen, rest, part + "\n\n"));
        PackFlushes(len, maxLen, parts, current);
      } else {
        PackKeepsInk(len, maxLen, rest, current + part + "\n\n");
        InkOfPart(current, part, rest);
      }
    }
  }

  lemma {:induction false} InkOfFlush(part: string, rest: seq<string>, current: string, later: seq<string>)
    requires Ink(Glue(later)) == Ink(part + "\n\n") + Ink(Glue(rest))
    ensures Ink(Glue([Trim(current)] + later)) == Ink(current) + Ink(Glue([part] + rest))
  {
    InkOfPart("", part, rest);
    assert "" + part + "\n\n" == part + "\n\n";
    SentenceEnded(current, later);
  }

  lemma {:induction false} PackFlushes(len: string -> nat, maxLen: nat, parts: seq<string>, current: string)
    requires parts != [] && len(current) + len(parts[0]) + 2 > maxLen && current != ""
    ensures Pack(len, maxLen, parts, current) == [Trim(current)] + Pack(len, maxLen, parts[1..], parts[0] + "\n\n")
  {
  }

  /** Up to whitespace, the parts of a large text concatenate to it. */
  lemma {:induction false} SplitConservesText(len: string -> nat, maxLen: nat, text: string)
    ensures Ink(Glue(LargeTextSplit(len, maxLen, text))) == Ink(text)
  {
    ParagraphsKeepInk(text);
    PartsKeepInk(len, maxLen, Paragraphs(text));
    PackKeepsInk(len, maxLen, AllParts(len, maxLen, Paragraphs(text)), "");
  }

  // ---------- nothing is too long ----------

  /** A sentence: no sentence end but, it may be, the last character. */
  predicate IsSentence(s: string) {
    forall i :: 0 <= i < |s| - 1 ==> !EndsSentence(s[i])
  }

  lemma {:induction false} SentencesAreSentences(text: string, current: string)
    requires forall i :: 0 <= i < |current| ==> !EndsSentence(current[i])
    ensures forall s :: s in SentencesFrom(text, current) ==> IsSentence(s) && Trim(s) == s
    decreases |text|
  {
    if text == [] {
      TrimmedPart(current);
    } else {
      var more := current + [text[0]];
      TrimmedPart(more);
      SentencesAreSentences(text[1..], if EndsSentence(text[0]) then "" else more);
    }
  }

  lemma {:induction false} TrimmedPart(s: string)
    requires IsSentence(s)
    ensures IsSentence(Trim(s)) && Trim(Trim(s)) == Trim(s)
  {
    var before, after := TrimSplits(s);
    assert forall i :: 0 <= i < |Trim(s)| ==> Trim(s)[i] == s[|before| + i];
    if Trim(s) != [] { TrimKeeps(Trim(s)); }
  }

  /** Short enough, or one of the sentences of a paragraph that is not. */
  ghost predicate FitsOrSentence(len: string -> nat, maxLen: nat, paras: seq<string>, s: string) {
    len(s) <= maxLen || exists p :: p in paras && len(p) > maxLen && s in SentencesFrom(p, "")
  }

  lemma {:induction false} TrimIsShorter(len: string -> nat, s: string)
    requires IsMeasure(len)
    ensures len(Trim(s)) <= len(s)
  {
    var before, after := TrimSplits(s);
    assert len(before + Trim(s) + after) == len(before + Trim(s)) + len(after);
  }

  lemma {:induction false} PartsFit(len: string -> nat, maxLen: nat, paras: seq<string>)
    ensures forall s :: s in AllParts(len, maxLen, paras) ==> FitsOrSentence(len, maxLen, paras, s)
  {
    if paras != [] {
      PartsFit(len, maxLen, paras[1..]);
      assert paras[0] in paras && forall p :: p in paras[1..] ==> p in paras;
      forall s | s in PartsOf(len, maxLen, paras[0]) ensures FitsOrSentence(len, maxLen, paras, s) {
      }
    }
  }

  /** What is being filled: nothing, a text that fits with its blank line, or a single part. */
  ghost predicate Filling(len: string -> nat, maxLen: nat, paras: seq<string>, current: string) {
    current == "" || len(current) <= maxLen ||
      exists part :: current == part + "\n\n" && FitsOrSentence(len, maxLen, paras, part)
  }

  lemma {:induction false} FilledFits(len: string -> nat, maxLen: nat, paras: seq<string>, current: string)
    requires IsMeasure(len) && Filling(len, maxLen, paras, current) && current != ""
    ensures FitsOrSentence(len, maxLen, paras, Trim(current))
  {
    TrimIsShorter(len, current);
    if len(current) > maxLen {
      var part :| current == part + "\n\n" && FitsOrSentence(len, maxLen, paras, part);
      TrimBlankEnd(part);
      TrimIsShorter(len, part);
      if len(part) > maxLen {
        var p :| p in paras && len(p) > maxLen && part in SentencesFrom(p, "");
        SentencesAreSentences(p, "");
      }
    }
  }

  lemma {:induction false} TrimBlankEnd(part: string)
    ensures Trim(part + "\n\n") == Trim(part)
  {
    if IsBlank(part) {
      TrimStartBlank(part, "\n\n");
      TrimStartBlank("\n\n", "");
      TrimStartBlank(part, "");
      assert "\n\n" + "" == "\n\n" && part + "" == part;
    } else {
      TrimStartEarlier(part, "\n\n");
      TrimEndBlank(TrimStart(part), "\n\n");
    }
  }

  lemma {:induction false} PackFits(len: string -> nat, maxLen: nat, paras: seq<string>, parts: seq<string>,
      current: string)
    requires IsMeasure(len) && Filling(len, maxLen, paras, current)
    requires forall s :: s in parts ==> FitsOrSentence(len, maxLen, paras, s)
    ensures forall s :: s in Pack(len, maxLen, parts, current) ==> FitsOrSentence(len, maxLen, paras, s)
    decreases |parts|
  {
    if current != "" { FilledFits(len, maxLen, paras, current); }
    if parts != [] {
      var part, rest := parts[0], parts[1..];
      assert part in parts && forall s :: s in rest ==> s in parts;
      if len(current) + len(part) + 2 > maxLen && current != "" {
        assert Filling(len, maxLen, paras, part + "\n\n");
        PackFits(len, maxLen, paras, rest, part + "\n\n");
      } else {
        assert len(current + part + "\n\n") == len(current) + len(part) + 2;
        if current == "" { assert current + part + "\n\n" == part + "\n\n"; }
        PackFits(len, maxLen, paras, rest, current + part + "\n\n");
      }
    } else {
      assert IsBlank("");
    }
  }

  /** Every part of a large text is within the limit, or is one of the sentences of a paragraph that is not. */
  lemma {:induction false} SplitBoundsLength(len: string -> nat, maxLen: nat, text: string)
    requires IsMeasure(len)
    ensures forall s :: s in LargeTextSplit(len, maxLen, text) ==> FitsOrSentence(len, maxLen, Paragraphs(text), s)
  {
    PartsFit(len, maxLen, Paragraphs(text));
    PackFits(len, maxLen, Paragraphs(text), AllParts(len, maxLen, Paragraphs(text)), "");
  }

  /** The byte length of the source is such a measure. */
  lemma {:induction false} BytesAreAMeasure()
    ensures IsMeasure(s => Utf8.Len(s))
  {
    forall a: string, b: string ensures Utf8.Len(a + b) == Utf8.Len(a) + Utf8.Len(b) { Utf8.EncodeConcat(a, b); }
    assert "\n\n"[1..] == "\n" && "\n"[1..] == "";
    assert Utf8.Encode("\n") == Utf8.EncodeChar('\n') + Utf8.Encode("");
  }

  // ---------- empty parts ----------

  /** No paragraph but the last is blank. */
  predicate InkBeforeLast(paras: seq<string>) {
    forall i :: 0 <= i < |paras| - 1 ==> !IsBlank(paras[i])
  }

  lemma {:induction false} TrimmedInk(s: string)
    requires !IsBlank(s)
    ensures Trim(s) != "" && !IsBlank(Trim(s))
  {
    var before, after := TrimSplits(s);
    assert !IsSpace(Trim(s)[0]);
  }

  /** A sentence has ink. */
  lemma {:induction false} SentencesHaveInk(text: string, current: string)
    ensures forall s :: s in SentencesFrom(text, current) ==> !IsBlank(s)
    decreases |text|
  {
    if text == [] {
      if !IsBlank(current) { TrimmedInk(current); }
    } else {
      var more := current + [text[0]];
      SentencesHaveInk(text[1..], if EndsSentence(text[0]) then "" else more);
      if EndsSentence(text[0]) {
        assert !IsSpace(more[|current|]);
        TrimmedInk(more);
      }
    }
  }

  lemma {:induction false} BlankHasNoSentence(text: string, current: string)
    requires IsBlank(current + text)
    ensures SentencesFrom(text, current) == []
    decreases |text|
  {
    if text == [] {
      assert current + text == current;
    } else {
      assert text[0] == (current + text)[|current|];
      assert current + text == (current + [text[0]]) + text[1..];
      BlankHasNoSentence(text[1..], current + [text[0]]);
    }
  }

  /** A paragraph with ink gives parts, and all of them have ink; a blank one gives itself or nothing. */
  lemma {:induction false} PartsInked(len: string -> nat, maxLen: nat, para: string)
    ensures !IsBlank(para) ==>
      PartsOf(len, maxLen, para) != [] && forall s :: s in PartsOf(len, maxLen, para) ==> !IsBlank(s)
    ensures IsBlank(para) ==> PartsOf(len, maxLen, para) == if len(para) > maxLen then [] else [para]
  {
    SentencesHaveInk(para, "");
    assert "" + para == para;
    if IsBlank(para) {
      BlankHasNoSentence(para, "");
    } else {
      SentencesKeepInk(para, "");
      BlankHasNoInk(para);
      assert Ink(Glue([])) == "";
    }
  }

  lemma {:induction false} PartsInkBeforeLast(len: string -> nat, maxLen: nat, paras: seq<string>)
    requires InkBeforeLast(paras)
    ensures InkBeforeLast(AllParts(len, maxLen, paras))
  {
    if paras != [] {
      var parts, later := PartsOf(len, maxLen, paras[0]), AllParts(len, maxLen, paras[1..]);
      PartsInked(len, maxLen, paras[0]);
      assert InkBeforeLast(paras[1..]) by { assert forall i :: 0 <= i < |paras| - 1 ==> paras[1..][i] == paras[i + 1]; }
      PartsInkBeforeLast(len, maxLen, paras[1..]);
      if |paras| == 1 {
        assert parts + later == parts;
      }
    }
  }

  lemma {:induction false} PackInked(len: string -> nat, maxLen: nat, parts: seq<string>, current: string)
    requires InkBeforeLast(parts) && (current == "" || !IsBlank(current) || parts == [])
    ensures "" !in Pack(len, maxLen, parts, current)
    decreases |parts|
  {
    if !IsBlank(current) { TrimmedInk(current); }
    if parts != [] {
      var part, rest := parts[0], parts[1..];
      assert forall i :: 0 <= i < |rest| ==> rest[i] == parts[i + 1];
      assert rest != [] ==> !IsBlank(part);
      if !IsBlank(part) {
        NotBlankBefore(part, "\n\n");
        NotBlankAfter(current, part);
        NotBlankBefore(current + part, "\n\n");
      }
      PackInked(len, maxLen, rest, if len(current) + len(part) + 2 > maxLen && current != "" then part + "\n\n"
        else current + part + "\n\n");
    }
  }

  /** When only the last paragraph may be blank, no limit gives an empty part. */
  lemma {:induction false} NoEmptyPart(len: string -> nat, maxLen: nat, text: string)
    requires InkBeforeLast(Paragraphs(text))
    ensures "" !in LargeTextSplit(len, maxLen, text)
  {
    PartsInkBeforeLast(len, maxLen, Paragraphs(text));
    PackInked(len, maxLen, AllParts(len, maxLen, Paragraphs(text)), "");
  }

  lemma {:induction false} PartsJoin(len: string -> nat, maxLen: nat, a: seq<string>, b: seq<string>)
    ensures AllParts(len, maxLen, a + b) == AllParts(len, maxLen, a) + AllParts(len, maxLen, b)
  {
    if a == [] {
      assert a + b == b;
    } else {
      assert (a + b)[0] == a[0] && (a + b)[1..] == a[1..] + b;
      PartsJoin(len, maxLen, a[1..], b);
    }
  }

  /** Packing comes to every part, with something open. */
  lemma {:induction false} PackReaches(len: string -> nat, maxLen: nat, a: seq<string>, b: seq<string>, current: string)
    returns (out: seq<string>, open: string)
    ensures Pack(len, maxLen, a + b, current) == out + Pack(len, maxLen, b, open)
    decreases |a|
  {
    if a == [] {
      out, open := [], current;
      assert a + b == b;
    } else {
      var part := a[0];
      assert (a + b)[0] == part && (a + b)[1..] == a[1..] + b;
      if len(current) + len(part) + 2 > maxLen && current != "" {
        out, open := PackReaches(len, maxLen, a[1..], b, part + "\n\n");
        out := [Trim(current)] + out;
      } else {
        out, open := PackReaches(len, maxLen, a[1..], b, current + part + "\n\n");
      }
    }
  }

  /** A blank part as long as the limit stands alone, and is closed by whatever part comes next. */
  lemma {:induction false} BlankStandsAlone(len: string -> nat, blank: string, later: seq<string>, open: string)
    requires IsMeasure(len) && IsBlank(blank) && later != []
    ensures "" in Pack(len, len(blank), [blank] + later, open)
  {
    var maxLen, parts, begun := len(blank), [blank] + later, blank + "\n\n";
    assert parts[1..] == later;
    assert "" + blank + "\n\n" == begun && len(begun) == maxLen + 2;
    TrimBlankEnd(blank);
    assert Trim(blank) == "" by { var before, after := TrimSplits(blank); }
    assert Pack(len, maxLen, later, begun) == [""] + Pack(len, maxLen, later[1..], later[0] + "\n\n");
    assert Pack(len, maxLen, parts, open) ==
      (if open == "" then [] else [Trim(open)]) + Pack(len, maxLen, later, begun);
  }

  lemma {:induction false} LaterPart(len: string -> nat, maxLen: nat, paras: seq<string>, j: nat)
    requires j < |paras| && (!IsBlank(paras[j]) || len(paras[j]) <= maxLen)
    ensures AllParts(len, maxLen, paras) != []
  {
    PartsInked(len, maxLen, paras[0]);
    if j > 0 { LaterPart(len, maxLen, paras[1..], j - 1); }
  }

  /**
   * A blank paragraph, and after it one with ink or one that is no longer: the length of the first is a limit with an
   * empty part.
   */
  lemma {:induction false} SomeEmptyPart(len: string -> nat, text: string, k: nat, j: nat)
    requires IsMeasure(len) && k < j < |Paragraphs(text)| && IsBlank(Paragraphs(text)[k])
    requires !IsBlank(Paragraphs(text)[j]) || len(Paragraphs(text)[j]) <= len(Paragraphs(text)[k])
    ensures "" in LargeTextSplit(len, len(Paragraphs(text)[k]), text)
  {
    var paras, maxLen := Paragraphs(text), len(Paragraphs(text)[k]);
    var before, blank, after := paras[..k], paras[k], paras[k + 1..];
    LaterPart(len, maxLen, after, j - k - 1);
    assert paras == before + ([blank] + after);
    BlankAmong(len, paras, before, blank, after);
  }

  lemma {:induction false} BlankAmong(len: string -> nat, paras: seq<string>, before: seq<string>, blank: string,
      after: seq<string>)
    requires IsMeasure(len) && IsBlank(blank) && AllParts(len, len(blank), after) != [] &&
      paras == before + ([blank] + after)
    ensures "" in Pack(len, len(blank), AllParts(len, len(blank), paras), "")
  {
    var maxLen := len(blank);
    var first, later := AllParts(len, maxLen, before), AllParts(len, maxLen, after);
    PartsJoin(len, maxLen, before, [blank] + after);
    assert AllParts(len, maxLen, [blank] + after) == [blank] + later by { assert ([blank] + after)[1..] == after; }
    var out, open := PackReaches(len, maxLen, first, [blank] + later, "");
    BlankStandsAlone(len, blank, later, open);
  }

  lemma {:induction false} LastParagraph(text: string)
    requires text != "" && !IsSpace(text[|text| - 1])
    ensures var paras := Paragraphs(text); !IsBlank(paras[|paras| - 1])
    decreases |text|
  {
    match Find(text, "\n\n")
    case None => assert Paragraphs(text) == [text];
    case Some(i) =>
      FindIsLeftmost(text, "\n\n");
      assert text[i..i + 2][1] == '\n';
      assert i + 2 < |text|;
      LastParagraph(text[i + 2..]);
      assert Paragraphs(text) == [text[..i]] + Paragraphs(text[i + 2..]);
  }

  /**
   * Some limit gives an empty part exactly when a paragraph before the last is blank. This is for text that does not
   * end in whitespace, as no text does that the program splits.
   */
  lemma {:induction false} EmptyPart(len: string -> nat, text: string)
    requires IsMeasure(len) && (text == "" || !IsSpace(text[|text| - 1]))
    ensures (exists maxLen: nat :: "" in LargeTextSplit(len, maxLen, text)) <==> !InkBeforeLast(Paragraphs(text))
  {
    var paras := Paragraphs(text);
    if InkBeforeLast(paras) {
      forall maxLen: nat ensures "" !in LargeTextSplit(len, maxLen, text) { NoEmptyPart(len, maxLen, text); }
    } else {
      var k :| 0 <= k < |paras| - 1 && IsBlank(paras[k]);
      assert text != "" by { assert Paragraphs("") == [""]; }
      LastParagraph(text);
      SomeEmptyPart(len, text, k, |paras| - 1);
    }
  }

  /**
   * Text that ends in whitespace is different: a blank paragraph before a much longer blank one leaves no empty part at
   * any limit.
   */
  lemma {:induction false} BlankTailVanishes(len: string -> nat, maxLen: nat, text: string, a: string, x: string,
      y: string)
    requires IsMeasure(len) && Paragraphs(text) == [a, x, y] && !IsBlank(a) && IsBlank(x) && IsBlank(y)
    requires len(a) + 2 + len(x) + 2 <= len(y)
    ensures "" !in LargeTextSplit(len, maxLen, text)
  {
    PartsInked(len, maxLen, y);
    assert [a, x, y] == [a, x] + [y] && [y][1..] == [];
    PartsJoin(len, maxLen, [a, x], [y]);
    assert AllParts(len, maxLen, [y]) == PartsOf(len, maxLen, y) + [];
    if len(y) > maxLen {
      assert AllParts(len, maxLen, [a, x]) + [] == AllParts(len, maxLen, [a, x]);
      PartsInkBeforeLast(len, maxLen, [a, x]);
      PackInked(len, maxLen, AllParts(len, maxLen, [a, x]), "");
    } else {
      assert [a, x][1..] == [x] && [x][1..] == [];
      assert AllParts(len, maxLen, [x]) == [x] && AllParts(len, maxLen, [a, x]) == [a, x];
      assert AllParts(len, maxLen, Paragraphs(text)) == [a, x, y];
      BlankTailPacked(len, maxLen, a, x, y);
    }
  }

  lemma {:induction false} BlankTailPacked(len: string -> nat, maxLen: nat, a: string, x: string, y: string)
    requires IsMeasure(len) && !IsBlank(a) && len(a) + 2 + len(x) + 2 <= maxLen
    ensures "" !in Pack(len, maxLen, [a, x, y], "")
  {
    var open := a + "\n\n" + x + "\n\n";
    assert "" + a + "\n\n" == a + "\n\n" && [a, x, y][1..] == [x, y] && [x, y][1..] == [y];
    assert len(a + "\n\n") == len(a) + 2;
    assert Pack(len, maxLen, [a, x, y], "") == Pack(len, maxLen, [x, y], a + "\n\n");
    assert Pack(len, maxLen, [x, y], a + "\n\n") == Pack(len, maxLen, [y], open);
    NotBlankBefore(a, "\n\n");
    NotBlankBefore(a + "\n\n", x);
    NotBlankBefore(a + "\n\n" + x, "\n\n");
    PackInked(len, maxLen, [y], open);
  }

  // ---------- which parts stand together ----------

  function Joined(parts: seq<string>): string {
    if parts == [] then "" else Joined(parts[..|parts| - 1]) + parts[|parts| - 1] + "\n\n"
  }

  function Flat(groups: seq<seq<string>>): seq<string> {
    if groups == [] then [] else groups[0] + Flat(groups[1..])
  }

  /** A group fits with the blank lines of its parts, or is one part. */
  predicate IsFull(len: string -> nat, maxLen: nat, group: seq<string>) {
    group != [] && (|group| == 1 || len(Joined(group)) <= maxLen)
  }

  /** Each group takes as many parts as it can: the next part would not fit. */
  ghost predicate Filled(len: string -> nat, maxLen: nat, groups: seq<seq<string>>) {
    && (forall k :: 0 <= k < |groups| ==> IsFull(len, maxLen, groups[k]))
    && (forall k, next :: 0 <= k && next == k + 1 < |groups| ==>
      len(Joined(groups[k])) + len(groups[next][0]) + 2 > maxLen)
  }

  ghost predicate Fills(len: string -> nat, maxLen: nat, parts: seq<string>, groups: seq<seq<string>>) {
    Filled(len, maxLen, groups) && Flat(groups) == parts
  }

  function Grouping(len: string -> nat, maxLen: nat, parts: seq<string>, open: seq<string>): seq<seq<string>> {
    if parts == [] then if open == [] then [] else [open]
    else if open != [] &&
      len(Joined(open)) + len(parts[0]) + 2 > maxLen then [open] + Grouping(len, maxLen, parts[1..], [parts[0]])
    else Grouping(len, maxLen, parts[1..], open + [parts[0]])
  }

  lemma {:induction false} JoinedNext(len: string -> nat, parts: seq<string>, part: string)
    ensures Joined(parts + [part]) == Joined(parts) + part + "\n\n"
    ensures IsMeasure(len) ==> len(Joined(parts + [part])) == len(Joined(parts)) + len(part) + 2
  {
    assert (parts + [part])[..|parts|] == parts;
    assert Joined(parts) + part + "\n\n" == (Joined(parts) + part) + "\n\n";
  }

  lemma {:induction false} GroupBefore(len: string -> nat, maxLen: nat, group: seq<string>, groups: seq<seq<string>>)
    requires IsFull(len, maxLen, group) && Filled(len, maxLen, groups)
    requires groups != [] ==> len(Joined(group)) + len(groups[0][0]) + 2 > maxLen
    ensures Filled(len, maxLen, [group] + groups) && Flat([group] + groups) == group + Flat(groups)
  {
    var all := [group] + groups;
    assert all[1..] == groups;
    forall k, next | 0 <= k && next == k + 1 < |all| ensures len(Joined(all[k])) + len(all[next][0]) + 2 > maxLen {
      if k > 0 { assert all[k] == groups[k - 1] && all[next] == groups[k]; }
    }
  }

  lemma {:induction false} GroupingFills(len: string -> nat, maxLen: nat, parts: seq<string>, open: seq<string>)
    requires IsMeasure(len) && (open == [] || IsFull(len, maxLen, open))
    ensures var groups := Grouping(len, maxLen, parts, open);
      && Fills(len, maxLen, open + parts, groups)
      && (open + parts != [] ==> groups != [] && groups[0][0] == (open + parts)[0])
    decreases |parts|
  {
    if parts == [] {
      assert open + parts == open;
      if open != [] {
        assert [open][1..] == [] && open + [] == open;
      }
    } else {
      var part, rest := parts[0], parts[1..];
      JoinedNext(len, open, part);
      assert [part] + rest == parts && open + [part] + rest == open + parts;
      if open != [] && len(Joined(open)) + len(part) + 2 > maxLen {
        GroupingFills(len, maxLen, rest, [part]);
        GroupBefore(len, maxLen, open, Grouping(len, maxLen, rest, [part]));
      } else {
        GroupingFills(len, maxLen, rest, open + [part]);
      }
    }
  }

  /** What is put out for the groups: all of them trimmed, but for a last one that is blank. */
  function Texts(groups: seq<seq<string>>): seq<string> {
    if groups == [] || (|groups| == 1 && IsBlank(Joined(groups[0]))) then []
      else [Trim(Joined(groups[0]))] + Texts(groups[1..])
  }

  lemma {:induction false} PackIsTexts(len: string -> nat, maxLen: nat, parts: seq<string>, open: seq<string>)
    requires IsMeasure(len) && (open == [] || IsFull(len, maxLen, open))
    ensures Pack(len, maxLen, parts, Joined(open)) == Texts(Grouping(len, maxLen, parts, open))
    decreases |parts|
  {
    if parts == [] {
      assert [open][1..] == [] && Texts([]) == [];
    } else {
      var part, rest := parts[0], parts[1..];
      JoinedNext(len, open, part);
      if open != [] && len(Joined(open)) + len(part) + 2 > maxLen {
        JoinedNext(len, [], part);
        assert [] + [part] == [part] && "" + part + "\n\n" == part + "\n\n";
        PackIsTexts(len, maxLen, rest, [part]);
        GroupingFills(len, maxLen, rest, [part]);
        var later := Grouping(len, maxLen, rest, [part]);
        assert ([open] + later)[1..] == later;
      } else {
        PackIsTexts(len, maxLen, rest, open + [part]);
      }
    }
  }

  predicate AllBlank(parts: seq<string>) {
    forall i :: 0 <= i < |parts| ==> IsBlank(parts[i])
  }

  lemma {:induction false} JoinedBlank(parts: seq<string>)
    ensures IsBlank(Joined(parts)) <==> AllBlank(parts)
  {
    if parts != [] {
      var before, part := parts[..|parts| - 1], parts[|parts| - 1];
      JoinedBlank(before);
      BlankTogether(Joined(before), part);
      BlankTogether(Joined(before) + part, "\n\n");
    }
  }

  lemma {:induction false} BlankTogether(s: string, t: string)
    ensures IsBlank(s + t) <==> IsBlank(s) && IsBlank(t)
  {
    if !IsBlank(s) { NotBlankBefore(s, t); }
    if !IsBlank(t) { NotBlankAfter(s, t); }
  }

  lemma {:induction false} EmptyText(groups: seq<seq<string>>)
    ensures "" in Texts(groups) <==> exists k :: 0 <= k < |groups| - 1 && IsBlank(Joined(groups[k]))
  {
    if groups != [] {
      var before, after := TrimSplits(Joined(groups[0]));
      var rest := groups[1..];
      EmptyText(rest);
      assert forall k :: 0 <= k < |rest| ==> rest[k] == groups[k + 1];
      assert forall k :: 1 <= k < |groups| ==> groups[k] == rest[k - 1];
    }
  }

  lemma {:induction false} JoinedPrefix(len: string -> nat, parts: seq<string>, k: nat)
    requires IsMeasure(len) && k <= |parts|
    ensures len(Joined(parts[..k])) <= len(Joined(parts))
  {
    if k == |parts| {
      assert parts[..k] == parts;
    } else {
      var before := parts[..|parts| - 1];
      JoinedPrefix(len, before, k);
      assert before[..k] == parts[..k] && parts == before + [parts[|parts| - 1]];
      JoinedNext(len, before, parts[|parts| - 1]);
    }
  }

  /** Of two fillings of the same parts, neither has the longer first group. */
  lemma {:induction false} FirstGroup(len: string -> nat, maxLen: nat, parts: seq<string>, groups: seq<seq<string>>,
      others: seq<seq<string>>)
    requires IsMeasure(len) && Fills(len, maxLen, parts, groups) && Fills(len, maxLen, parts, others) && groups != [] &&
      others != []
    ensures |others[0]| <= |groups[0]|
  {
    var g, o, rest := groups[0], others[0], groups[1..];
    assert parts == g + Flat(rest) == o + Flat(others[1..]);
    if |g| < |o| && rest != [] {
      var next := rest[0];
      assert next == groups[1] && IsFull(len, maxLen, next) && IsFull(len, maxLen, g) && IsFull(len, maxLen, o);
      assert Flat(rest)[0] == next[0];
      assert o[..|g| + 1] == parts[..|g| + 1] == g + [next[0]];
      NextPartFits(len, maxLen, g, o, next[0]);
    }
  }

  lemma {:induction false} NextPartFits(len: string -> nat, maxLen: nat, g: seq<string>, o: seq<string>, part: string)
    requires IsMeasure(len) && IsFull(len, maxLen, o) && 0 < |g| < |o| && o[..|g| + 1] == g + [part]
    ensures len(Joined(g)) + len(part) + 2 <= maxLen
  {
    JoinedNext(len, g, part);
    JoinedPrefix(len, o, |g| + 1);
  }

  lemma {:induction false} FilledRest(len: string -> nat, maxLen: nat, groups: seq<seq<string>>)
    requires Filled(len, maxLen, groups) && groups != []
    ensures Filled(len, maxLen, groups[1..]) && groups[0] != []
  {
    var rest := groups[1..];
    forall k, next | 0 <= k && next == k + 1 < |rest| ensures len(Joined(rest[k])) + len(rest[next][0]) + 2 > maxLen {
      assert rest[k] == groups[next] && rest[next] == groups[next + 1];
    }
  }

  /** There is only one way to fill groups with given parts. */
  lemma {:induction false} FilledOneWay(len: string -> nat, maxLen: nat, parts: seq<string>, groups: seq<seq<string>>,
      others: seq<seq<string>>)
    requires IsMeasure(len) && Fills(len, maxLen, parts, groups) && Fills(len, maxLen, parts, others)
    ensures groups == others
    decreases |groups|
  {
    if groups != [] { FilledRest(len, maxLen, groups); }
    if others != [] { FilledRest(len, maxLen, others); }
    if groups != [] && others != [] {
      FirstGroup(len, maxLen, parts, groups, others);
      FirstGroup(len, maxLen, parts, others, groups);
      var n := |groups[0]|;
      assert groups[0] == parts[..n] == others[0];
      assert Flat(groups[1..]) == parts[n..] == Flat(others[1..]);
      FilledOneWay(len, maxLen, parts[n..], groups[1..], others[1..]);
      assert groups == [groups[0]] + groups[1..] && others == [others[0]] + others[1..];
    }
  }

  /** A large text is cut into the one filling of its parts. */
  lemma {:induction false} SplitIsFilling(len: string -> nat, maxLen: nat, text: string, groups: seq<seq<string>>)
    requires IsMeasure(len)
    ensures Fills(len, maxLen, AllParts(len, maxLen, Paragraphs(text)), groups) ==>
      LargeTextSplit(len, maxLen, text) == Texts(groups)
    ensures exists g :: Fills(len, maxLen, AllParts(len, maxLen, Paragraphs(text)), g)
  {
    var parts := AllParts(len, maxLen, Paragraphs(text));
    var g := Grouping(len, maxLen, parts, []);
    GroupingFills(len, maxLen, parts, []);
    PackIsTexts(len, maxLen, parts, []);
    assert [] + parts == parts && Joined([]) == "";
    if Fills(len, maxLen, parts, groups) { FilledOneWay(len, maxLen, parts, groups, g); }
  }

  /** A given limit gives an empty part exactly when a group before the last holds blank parts only. */
  lemma {:induction false} EmptyPartAt(len: string -> nat, maxLen: nat, text: string, groups: seq<seq<string>>)
    requires IsMeasure(len) && Fills(len, maxLen, AllParts(len, maxLen, Paragraphs(text)), groups)
    ensures "" in LargeTextSplit(len, maxLen, text) <==>
      exists k :: 0 <= k < |groups| - 1 && AllBlank(groups[k])
  {
    SplitIsFilling(len, maxLen, text, groups);
    EmptyText(groups);
    forall k | 0 <= k < |groups| - 1
      ensures IsBlank(Joined(groups[k])) <==> AllBlank(groups[k]) { JoinedBlank(groups[k]); }
  }

  /** The bodies that are split do not end in whitespace. */
  lemma {:induction false} BodiesEndInInk(lines: seq<string>, name: Option<string>, buf: string)
    ensures forall s :: s in SectionsFrom(lines, name, buf) ==> s.body == "" || !IsSpace(s.body[|s.body| - 1])
    decreases |lines|
  {
    var before, after := TrimSplits(buf);
    if lines != [] {
      if !IsHeading(lines[0]) {
        BodiesEndInInk(lines[1..], name, buf + lines[0] + "\n");
      } else {
        BodiesEndInInk(lines[1..], Some(Trim(lines[0])), if name.Some? then "" else buf);
      }
    }
  }

  // ---------- a whole document ----------

  /** What all chunks of a document share: where it came from, its hash and the time of extraction. */
  datatype Origin = Origin(command: string, path: string, extraction: string, hash: string, at: Time)

  function ChunkOf(origin: Origin, s: Section, index: nat, total: nat): Chunk {
    Chunk(origin.command, origin.path, origin.extraction, s.name, index, total, origin.hash, origin.at, s.body)
  }

  predicate NamedName(s: Section) { Lower(s.name) == "name" }

  /** NAME sections first; otherwise the order of the document. */
  function NameFirst(): (Section, Section) -> bool {
    (a, b) => NamedName(a) || !NamedName(b)
  }

  function SectionChunks(len: string -> nat, maxLen: nat, s: Section): seq<string> {
    if len(s.body) <= maxLen then [s.body] else LargeTextSplit(len, maxLen, s.body)
  }

  function Numbered(origin: Origin, outputs: seq<Section>): (r: seq<Chunk>)
    ensures |r| == |outputs|
    ensures forall i :: 0 <= i < |r| ==> r[i] == ChunkOf(origin, outputs[i], i, |outputs|)
  {
    seq(|outputs|, i requires 0 <= i < |outputs| => ChunkOf(origin, outputs[i], i, |outputs|))
  }

  function Tagged(name: string, texts: seq<string>): seq<Section> {
    if texts == [] then [] else [Section(name, texts[0])] + Tagged(name, texts[1..])
  }

  function Outputs(len: string -> nat, maxLen: nat, sections: seq<Section>): seq<Section> {
    if sections == [] then [] else
      Tagged(sections[0].name, SectionChunks(len, maxLen, sections[0])) + Outputs(len, maxLen, sections[1..])
  }

  /** The sections of the document, or a single stand-in when it has no heading. */
  function FoundSections(command: string, document: string): seq<Section> {
    var sections := SectionsFrom(Lines(document), None, "");
    if sections == [] then [Section("NAME", command + " - no documentation available")] else sections
  }

  function DocumentSections(command: string, document: string): seq<Section> {
    SortBy(NameFirst(), FoundSections(command, document))
  }

  method ChunkDocument(len: string -> nat, maxLen: nat, origin: Origin, document: string) returns (chunks: seq<Chunk>)
    ensures chunks == Numbered(origin, Outputs(len, maxLen, DocumentSections(origin.command, document)))
  {
    var sections := SplitSections(document);
    if sections == [] {
      sections := [Section("NAME", origin.command + " - no documentation available")];
    }
    sections := SortBy(NameFirst(), sections);
    var outputs := CutSections(len, maxLen, sections);
    chunks := Numbered(origin, outputs);
  }

  method CutSections(len: string -> nat, maxLen: nat, sections: seq<Section>) returns (outputs: seq<Section>)
    ensures outputs == Outputs(len, maxLen, sections)
  {
    outputs := [];
    ghost var all := Outputs(len, maxLen, sections);
    assert sections[0..] == sections;
    for i := 0 to |sections|
      invariant outputs + Outputs(len, maxLen, sections[i..]) == all
    {
      var s := sections[i];
      var parts := [s.body];
      if len(s.body) > maxLen {
        parts := SplitLargeText(len, s.body, maxLen);
      }
      OutputsNext(len, maxLen, sections, i, outputs);
      outputs := TagAll(outputs, s.name, parts);
    }
  }

  lemma {:induction false} OutputsNext(len: string -> nat, maxLen: nat, sections: seq<Section>, i: nat,
      before: seq<Section>)
    requires i < |sections|
    ensures before + Outputs(len, maxLen, sections[i..]) ==
            (before + Tagged(sections[i].name, SectionChunks(len, maxLen, sections[i]))) +
              Outputs(len, maxLen, sections[i + 1..])
  {
    assert sections[i..][0] == sections[i] && sections[i..][1..] == sections[i + 1..];
  }

  method TagAll(before: seq<Section>, name: string, parts: seq<string>) returns (outputs: seq<Section>)
    ensures outputs == before + Tagged(name, parts)
  {
    outputs := before;
    assert parts[0..] == parts;
    for k := 0 to |parts|
      invariant outputs + Tagged(name, parts[k..]) == before + Tagged(name, parts)
    {
      assert parts[k..][0] == parts[k] && parts[k..][1..] == parts[k + 1..];
      outputs := outputs + [Section(name, parts[k])];
    }
  }

  lemma {:induction false} TaggedBodies(name: string, texts: seq<string>, later: seq<Section>)
    ensures Bodies(Tagged(name, texts) + later) == texts + Bodies(later)
  {
    var all := Tagged(name, texts) + later;
    if texts == [] {
      assert all == later;
    } else {
      assert all[0] == Section(name, texts[0]) && all[1..] == Tagged(name, texts[1..]) + later;
      TaggedBodies(name, texts[1..], later);
      assert texts + Bodies(later) == [texts[0]] + (texts[1..] + Bodies(later));
    }
  }

  lemma {:induction false} TaggedTexts(name: string, texts: seq<string>)
    ensures |Tagged(name, texts)| == |texts|
    ensures forall i :: 0 <= i < |texts| ==> Tagged(name, texts)[i] == Section(name, texts[i])
  {
    if texts != [] { TaggedTexts(name, texts[1..]); }
  }

  /**
   * Texts cut from a section: nothing but whitespace is lost, and each fits or is a sentence of too long a paragraph.
   */
  ghost predicate IsCut(len: string -> nat, maxLen: nat, s: Section, texts: seq<string>) {
    Ink(Glue(texts)) == Ink(s.body) && forall t :: t in texts ==> FitsOrSentence(len, maxLen, Paragraphs(s.body), t)
  }

  /** Chunks that are cuts of the sections, one section after another. */
  ghost predicate AreCuts(len: string -> nat, maxLen: nat, sections: seq<Section>, outputs: seq<Section>) {
    if sections == [] then outputs == [] else
      exists n: nat :: IsCutAt(len, maxLen, sections[0], outputs, n) &&
        AreCuts(len, maxLen, sections[1..], outputs[n..])
  }

  /** The first `n` chunks are cut from a section, and named after it. */
  ghost predicate IsCutAt(len: string -> nat, maxLen: nat, s: Section, outputs: seq<Section>, n: nat) {
    && n <= |outputs| && (forall i :: 0 <= i < n ==> outputs[i].name == s.name)
    && IsCut(len, maxLen, s, Bodies(outputs[..n]))
  }

  lemma {:induction false} SectionIsCut(len: string -> nat, maxLen: nat, s: Section)
    requires IsMeasure(len)
    ensures IsCut(len, maxLen, s, SectionChunks(len, maxLen, s))
  {
    SplitConservesText(len, maxLen, s.body);
    SplitBoundsLength(len, maxLen, s.body);
    InkOfGlue(s.body, []);
    assert [s.body] + [] == [s.body];
  }

  lemma {:induction false} OutputsAreCuts(len: string -> nat, maxLen: nat, sections: seq<Section>)
    requires IsMeasure(len)
    ensures AreCuts(len, maxLen, sections, Outputs(len, maxLen, sections))
  {
    if sections != [] {
      var s, all := sections[0], Outputs(len, maxLen, sections);
      var texts := SectionChunks(len, maxLen, s);
      var tagged, later := Tagged(s.name, texts), Outputs(len, maxLen, sections[1..]);
      OutputsAreCuts(len, maxLen, sections[1..]);
      SectionIsCut(len, maxLen, s);
      TaggedTexts(s.name, texts);
      assert all[..|texts|] == tagged && all[|texts|..] == later;
      TaggedBodies(s.name, texts, []);
      assert tagged + [] == tagged && texts + Bodies([]) == texts;
      assert IsCutAt(len, maxLen, s, all, |texts|);
    }
  }

  lemma {:induction false} ParagraphIsShorter(len: string -> nat, text: string, k: nat)
    requires IsMeasure(len) && k < |Paragraphs(text)|
    ensures len(Paragraphs(text)[k]) <= len(text) && (|Paragraphs(text)| > 1 ==> len(Paragraphs(text)[k]) < len(text))
    decreases |text|
  {
    match Find(text, "\n\n")
    case None => assert Paragraphs(text) == [text];
    case Some(i) =>
      var rest := text[i + 2..];
      FindIsLeftmost(text, "\n\n");
      assert text == text[..i] + "\n\n" + rest;
      assert len(text) == len(text[..i]) + 2 + len(rest);
      assert Paragraphs(text) == [text[..i]] + Paragraphs(rest);
      if k > 0 { ParagraphIsShorter(len, rest, k - 1); }
  }

  /**
   * Some limit gives a section of a document an empty chunk exactly when its body is empty, or has a blank paragraph
   * before the last.
   */
  lemma {:induction false} EmptyChunk(len: string -> nat, command: string, document: string, s: Section)
    requires IsMeasure(len) && s in FoundSections(command, document)
    ensures (exists maxLen: nat :: "" in SectionChunks(len, maxLen, s)) <==>
      s.body == "" || !InkBeforeLast(Paragraphs(s.body))
  {
    var paras := Paragraphs(s.body);
    BodiesEndInInk(Lines(document), None, "");
    if s.body == "" {
      assert "" in SectionChunks(len, len(s.body), s);
    } else if InkBeforeLast(paras) {
      forall maxLen: nat ensures "" !in SectionChunks(len, maxLen, s) { NoEmptyPart(len, maxLen, s.body); }
    } else {
      BlankMakesEmptyChunk(len, s);
    }
  }

  lemma {:induction false} BlankMakesEmptyChunk(len: string -> nat, s: Section)
    requires IsMeasure(len) && s.body != "" && !IsSpace(s.body[|s.body| - 1]) && !InkBeforeLast(Paragraphs(s.body))
    ensures exists maxLen: nat :: "" in SectionChunks(len, maxLen, s)
  {
    var paras := Paragraphs(s.body);
    var k :| 0 <= k < |paras| - 1 && IsBlank(paras[k]);
    LastParagraph(s.body);
    SomeEmptyPart(len, s.body, k, |paras| - 1);
    ParagraphIsShorter(len, s.body, k);
    assert "" in SectionChunks(len, len(paras[k]), s);
  }

  // ---------- NAME first ----------

  function Only(named: bool, sections: seq<Section>): seq<Section> {
    if sections == [] then []
      else (if NamedName(sections[0]) == named then [sections[0]] else []) + Only(named, sections[1..])
  }

  lemma {:induction false} OnlyHolds(named: bool, sections: seq<Section>)
    ensures forall s :: s in Only(named, sections) ==> NamedName(s) == named
  {
    if sections != [] { OnlyHolds(named, sections[1..]); }
  }

  lemma {:induction false} InsertAmong(x: Section, names: seq<Section>, others: seq<Section>)
    requires (forall s :: s in names ==> NamedName(s)) && (forall s :: s in others ==> !NamedName(s))
    ensures InsertBy(NameFirst(), x, names + others) == if NamedName(x) then [x] + names + others
      else names + [x] + others
  {
    if names == [] {
      assert names + others == others;
      assert others == [] || others[0] in others;
    } else {
      assert names[0] in names && (names + others)[1..] == names[1..] + others;
      InsertAmong(x, names[1..], others);
    }
  }

  /** Sorting only moves the NAME sections to the front: they, and the others, stay in the order they had. */
  lemma {:induction false} NamesMoveToFront(sections: seq<Section>)
    ensures SortBy(NameFirst(), sections) == Only(true, sections) + Only(false, sections)
  {
    if sections != [] {
      var rest := sections[1..];
      NamesMoveToFront(rest);
      OnlyHolds(true, rest);
      OnlyHolds(false, rest);
      InsertAmong(sections[0], Only(true, rest), Only(false, rest));
    }
  }

  /**
   * The chunks of a document are cuts of its sections, one section after another: the NAME sections first,
   * then the others, each in the order of the document.
   */
  lemma {:induction false} ChunksHoldDocument(len: string -> nat, maxLen: nat, command: string, document: string)
    requires IsMeasure(len)
    ensures var found, sections := FoundSections(command, document), DocumentSections(command, document);
      && sections == Only(true, found) + Only(false, found)
      && AreCuts(len, maxLen, sections, Outputs(len, maxLen, sections))
  {
    NamesMoveToFront(FoundSections(command, document));
    OutputsAreCuts(len, maxLen, DocumentSections(command, document));
  }
}

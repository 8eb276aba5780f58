/**
 * What headings, paragraphs, sentences and chunks are, by the characters of the document
 * (crates/termlm-indexer/src/chunk.rs).
 */
module ChunkText {
  import opened Wrappers
  import opened Ordering
  import opened Text
  import opened Chunks
  import opened Chunker
  import opened Runs

  // ---------- headings ----------

  /** The line begins with something other than a space and has no small ASCII letter. */
  predicate IsTitle(line: string) {
    && |line| > 0 && line[0] != ' '
    && forall i :: 0 <= i < |line| ==> (line[i] as int < 97 || line[i] as int > 122)
  }

  function Titles(lines: seq<string>): (v: seq<bool>)
    ensures |v| == |lines| && forall i :: 0 <= i < |v| ==> v[i] == IsTitle(lines[i])
  {
    seq(|lines|, i requires 0 <= i < |lines| => IsTitle(lines[i]))
  }

  /** The numbers of the lines from `begin` on that are titles. */
  ghost predicate AreTitles(lines: seq<string>, begin: nat, at: seq<nat>) {
    AreMarked(Titles(lines), begin, at)
  }

  lemma {:induction false} HeadingIsTitle(line: string)
    ensures IsHeading(line) <==> IsTitle(line)
  {
  }

  lemma {:induction false} HeadingsAt(lines: seq<string>, begin: nat) returns (at: seq<nat>)
    requires begin <= |lines|
    ensures AreTitles(lines, begin, at)
    ensures |HeadingsIn(lines[begin..])| == |at|
    ensures forall k :: 0 <= k < |at| ==> HeadingsIn(lines[begin..])[k] == Trim(lines[at[k]])
    decreases |lines| - begin
  {
    if begin == |lines| {
      at := [];
    } else {
      var later := HeadingsAt(lines, begin + 1);
      assert lines[begin..][0] == lines[begin] && lines[begin..][1..] == lines[begin + 1..];
      HeadingIsTitle(lines[begin]);
      MarkedNext(Titles(lines), begin, begin + 1, later);
      at := if IsTitle(lines[begin]) then [begin] + later else later;
    }
  }

  /** A document has a section for each title, named after it. */
  lemma {:induction false} SectionsHaveTitles(raw: string) returns (at: seq<nat>)
    ensures var lines, names := Lines(raw), Names(SectionsFrom(Lines(raw), None, ""));
      && AreTitles(lines, 0, at) && |names| == |at|
      && forall k :: 0 <= k < |at| ==> names[k] == Trim(lines[at[k]])
  {
    SectionsNamed(Lines(raw), None, "");
    at := HeadingsAt(Lines(raw), 0);
    assert Lines(raw)[0..] == Lines(raw) && [] + HeadingsIn(Lines(raw)) == HeadingsIn(Lines(raw));
  }

  // ---------- paragraphs ----------

  /** Two line ends in a row. */
  predicate HasBlankLine(s: string) {
    exists i :: 0 <= i < |s| - 1 && s[i] == '\n' && s[i + 1] == '\n'
  }

  function JoinParagraphs(paras: seq<string>): string
    requires paras != []
  {
    if |paras| == 1 then paras[0] else paras[0] + ("\n\n" + JoinParagraphs(paras[1..]))
  }

  /** The text is cut at each blank line, as early as can be: no paragraph has one, nor ends within one. */
  ghost predicate AreParagraphs(text: string, paras: seq<string>) {
    && paras != [] && JoinParagraphs(paras) == text
    && (forall k :: 0 <= k < |paras| - 1 ==> !HasBlankLine(paras[k] + "\n"))
    && !HasBlankLine(paras[|paras| - 1])
  }

  lemma {:induction false} BlankLineOccurs(s: string, i: nat)
    ensures OccursAt(s, "\n\n", i) <==> i + 2 <= |s| && s[i] == '\n' && s[i + 1] == '\n'
  {
    if i + 2 <= |s| {
      assert s[i..i + 2] == [s[i], s[i + 1]];
      assert "\n\n" == ['\n', '\n'];
    }
  }

  lemma {:induction false} ParagraphsMean(text: string)
    ensures AreParagraphs(text, Paragraphs(text))
    decreases |text|
  {
    FindIsLeftmost(text, "\n\n");
    match Find(text, "\n\n")
    case None =>
      forall i | 0 <= i < |text| - 1 ensures !(text[i] == '\n' && text[i + 1] == '\n') { BlankLineOccurs(text, i); }
    case Some(at) =>
      var first, rest := text[..at], text[at + 2..];
      ParagraphsMean(rest);
      assert Paragraphs(text) == [first] + Paragraphs(rest) && Paragraphs(text)[1..] == Paragraphs(rest);
      BlankLineOccurs(text, at);
      assert text == first + ("\n\n" + rest) by { assert text[at..at + 2] == "\n\n"; }
      FirstHasNone(text, at);
  }

  lemma {:induction false} FirstHasNone(text: string, at: nat)
    requires OccursAt(text, "\n\n", at) && forall j :: 0 <= j < at ==> !OccursAt(text, "\n\n", j)
    ensures !HasBlankLine(text[..at] + "\n")
  {
    var s := text[..at] + "\n";
    assert text[at..at + 2][0] == text[at] == '\n';
    forall i | 0 <= i < |s| - 1 ensures !(s[i] == '\n' && s[i + 1] == '\n') {
      BlankLineOccurs(text, i);
      assert s[i] == text[i] && s[i + 1] == text[i + 1];
    }
  }

  // ---------- sentences ----------

  /** A full stop, an exclamation mark, a question mark or a semicolon. */
  predicate IsStop(c: char) { c == '.' || c == '!' || c == '?' || c == ';' }

  predicate HasNoStop(s: string) {
    forall i :: 0 <= i < |s| ==> !IsStop(s[i])
  }

  function Concat(pieces: seq<string>): string {
    if pieces == [] then "" else pieces[0] + Concat(pieces[1..])
  }

  /** The text is cut after each stop. */
  ghost predicate AreSentencePieces(text: string, pieces: seq<string>, tail: string) {
    && text == Concat(pieces) + tail && HasNoStop(tail)
    && (forall k :: 0 <= k < |pieces| ==>
          |pieces[k]| > 0 && IsStop(pieces[k][|pieces[k]| - 1]) && HasNoStop(pieces[k][..|pieces[k]| - 1]))
  }

  /** The sentences are the pieces without outer whitespace, and what follows the last stop, if it is not blank. */
  ghost predicate AreSentences(pieces: seq<string>, tail: string, sentences: seq<string>) {
    && |sentences| == |pieces| + (if IsBlank(tail) then 0 else 1)
    && (forall k :: 0 <= k < |pieces| ==> sentences[k] == Trim(pieces[k]))
    && (!IsBlank(tail) ==> sentences[|pieces|] == Trim(tail))
  }

  lemma {:induction false} SentencesMean(text: string, current: string) returns (pieces: seq<string>, tail: string)
    requires HasNoStop(current)
    ensures AreSentencePieces(current + text, pieces, tail) && AreSentences(pieces, tail, SentencesFrom(text, current))
    decreases |text|
  {
    if text == [] {
      pieces, tail := [], current;
      assert current + text == current && Concat([]) + current == current;
    } else {
      var more, rest := current + [text[0]], text[1..];
      assert current + text == more + rest;
      if EndsSentence(text[0]) {
        pieces, tail := SentencesMean(rest, "");
        assert "" + rest == rest && more[..|more| - 1] == current;
        PiecesNext(more, rest, pieces, tail, SentencesFrom(rest, ""));
        pieces := [more] + pieces;
      } else {
        pieces, tail := SentencesMean(rest, more);
      }
    }
  }

  lemma {:induction false} PiecesNext(first: string, rest: string, pieces: seq<string>, tail: string,
      sentences: seq<string>)
    requires |first| > 0 && IsStop(first[|first| - 1]) && HasNoStop(first[..|first| - 1])
    requires AreSentencePieces(rest, pieces, tail) && AreSentences(pieces, tail, sentences)
    ensures AreSentencePieces(first + rest, [first] + pieces, tail)
    ensures AreSentences([first] + pieces, tail, [Trim(first)] + sentences)
  {
    assert ([first] + pieces)[1..] == pieces;
    assert first + (Concat(pieces) + tail) == (first + Concat(pieces)) + tail;
  }

  // ---------- parts and chunks ----------

  /** The parts of several paragraphs are those of each: the paragraph if it fits, and else its sentences. */
  lemma {:induction false} PartsMean(len: string -> nat, maxLen: nat, a: seq<string>, b: seq<string>, para: string)
    ensures AllParts(len, maxLen, a + b) == AllParts(len, maxLen, a) + AllParts(len, maxLen, b)
    ensures len(para) <= maxLen ==> AllParts(len, maxLen, [para]) == [para]
    ensures len(para) > maxLen ==> exists pieces, tail ::
      AreSentencePieces(para, pieces, tail) && AreSentences(pieces, tail, AllParts(len, maxLen, [para]))
  {
    PartsJoin(len, maxLen, a, b);
    assert [para][1..] == [] && AllParts(len, maxLen, []) == [];
    assert AllParts(len, maxLen, [para]) == PartsOf(len, maxLen, para) + [] == PartsOf(len, maxLen, para);
    var pieces, tail := SentencesMean(para, "");
    assert "" + para == para;
  }

  /** The section name is NAME in capital or small letters. */
  predicate SaysName(name: string) {
    && |name| == 4 && (name[0] == 'N' || name[0] == 'n') && (name[1] == 'A' || name[1] == 'a')
    && (name[2] == 'M' || name[2] == 'm') && (name[3] == 'E' || name[3] == 'e')
  }

  lemma {:induction false} NamedMeans(s: Section)
    ensures NamedName(s) <==> SaysName(s.name)
  {
    var lower := Lower(s.name);
    assert "name" == ['n', 'a', 'm', 'e'];
    if SaysName(s.name) { assert lower == ['n', 'a', 'm', 'e']; }
    if NamedName(s) { assert lower[0] == 'n' && lower[1] == 'a' && lower[2] == 'm' && lower[3] == 'e'; }
  }

  /** A section that fits is one chunk; of any other the chunks are the parts of its text. */
  lemma {:induction false} SectionChunksMean(len: string -> nat, maxLen: nat, s: Section, groups: seq<seq<string>>)
    requires IsMeasure(len)
    ensures len(s.body) <= maxLen ==> SectionChunks(len, maxLen, s) == [s.body]
    ensures len(s.body) > maxLen && Fills(len, maxLen, AllParts(len, maxLen, Paragraphs(s.body)), groups) ==>
      SectionChunks(len, maxLen, s) == Texts(groups)
  {
    SplitIsFilling(len, maxLen, s.body, groups);
  }

  /** The chunks of a document: one for each cut of a section, numbered in order, with what the document is known by. */
  lemma {:induction false} ChunksMean(len: string -> nat, maxLen: nat, origin: Origin, document: string, i: nat)
    requires i < |Outputs(len, maxLen, DocumentSections(origin.command, document))|
    ensures var outputs := Outputs(len, maxLen, DocumentSections(origin.command, document));
      var c := Numbered(origin, outputs)[i];
      && c.commandName == origin.command && c.path == origin.path && c.extractionMethod == origin.extraction
      && c.sectionName == outputs[i].name && c.text == outputs[i].body
      && c.chunkIndex == i && c.totalChunks == |outputs| && c.docHash == origin.hash && c.extractedAt == origin.at
  {
  }

  lemma {:induction false} NoHeadings(lines: seq<string>)
    requires forall i :: 0 <= i < |lines| ==> !IsTitle(lines[i])
    ensures HeadingsIn(lines) == []
  {
    if lines != [] {
      assert !IsTitle(lines[0]);
      NoHeadings(lines[1..]);
    }
  }

  lemma {:induction false} NamesOfAll(sections: seq<Section>)
    ensures |Names(sections)| == |sections|
  {
    if sections != [] { NamesOfAll(sections[1..]); }
  }

  /** A document without a title has one section, which says that there is nothing. */
  lemma {:induction false} UntitledDocument(command: string, document: string)
    requires forall i :: 0 <= i < |Lines(document)| ==> !IsTitle(Lines(document)[i])
    ensures DocumentSections(command, document) == [Section("NAME", command + " - no documentation available")]
  {
    NoHeadings(Lines(document));
    SectionsNamed(Lines(document), None, "");
    NamesOfAll(SectionsFrom(Lines(document), None, ""));
    var one := FoundSections(command, document);
    assert SortBy(NameFirst(), one[1..]) == [] && one[1..] == [];
  }
}

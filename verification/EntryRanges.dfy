/**
 * What the offset and length of an entry say of the texts of its path, wherever its chunks stand
 * (crates/termlm-indexer/src/store.rs).
 */
module EntryRanges {
  import opened Utf8
  import opened Binary
  import opened Chunks
  import EntriesFile
  import opened ChunksFile
  import opened Layout

  function Docs(chunks: seq<Chunk>): Bytes { Records(TextBytes(), chunks) }

  /** The texts of a path, one after another. */
  function OwnTexts(chunks: seq<Chunk>, path: string): Bytes {
    if chunks == [] then [] else
      var c := chunks[|chunks| - 1];
      OwnTexts(chunks[..|chunks| - 1], path) + if c.path == path then Encode(c.text) else []
  }

  /** A chunk of the path with some text. */
  predicate HasText(chunks: seq<Chunk>, path: string, i: int) {
    0 <= i < |chunks| && chunks[i].path == path && Encode(chunks[i].text) != []
  }

  /** The text of the chunk is that of the path or empty. */
  predicate OwnOrEmpty(c: Chunk, path: string) {
    c.path == path || Encode(c.text) == []
  }

  /** The chunk's text, which is in the docs file after the texts before it, is inside the range of the entry. */
  predicate InRange(chunks: seq<Chunk>, s: EntriesFile.Stats, i: nat)
    requires i < |chunks|
  {
    s.off <= |Docs(chunks[..i])| && |Docs(chunks[..i])| + |Encode(chunks[i].text)| <= s.off + s.length
  }

  ghost predicate CoversTexts(chunks: seq<Chunk>, path: string, s: EntriesFile.Stats) {
    forall i :: HasText(chunks, path, i) ==> InRange(chunks, s, i)
  }

  /** No text of another path stands between texts of this one. */
  ghost predicate StandsTogether(chunks: seq<Chunk>, path: string) {
    forall i, j, k :: 0 <= i < j < k && HasText(chunks, path, i) && HasText(chunks, path, k) ==>
      OwnOrEmpty(chunks[j], path)
  }

  lemma {:induction false} Snoc(chunks: seq<Chunk>, path: string, n: nat)
    requires n < |chunks|
    ensures Docs(chunks[..n + 1]) == Docs(chunks[..n]) + Encode(chunks[n].text)
    ensures OwnTexts(chunks[..n + 1], path) == OwnTexts(chunks[..n], path) + if chunks[n].path == path then
      Encode(chunks[n].text) else []
  {
    assert chunks[..n + 1][..n] == chunks[..n] && chunks[..n + 1][n] == chunks[n];
  }

  lemma {:induction false} Grows(chunks: seq<Chunk>, path: string, n: nat, next: nat)
    requires n < |chunks| && next == n + 1
    ensures |Docs(chunks[..next])| == |Docs(chunks[..n])| + |Encode(chunks[n].text)|
    ensures |OwnTexts(chunks[..next], path)| ==
      |OwnTexts(chunks[..n], path)| + (if chunks[n].path == path then |Encode(chunks[n].text)| else 0)
  {
    Snoc(chunks, path, n);
  }

  ghost predicate AllOwn(chunks: seq<Chunk>, path: string, a: nat, b: nat)
    requires a <= b <= |chunks|
  {
    forall j :: a <= j < b ==> OwnOrEmpty(chunks[j], path)
  }

  /**
   * From `a` to `b` the docs file grows at least by the texts of the path, and by as much exactly when there are no
   * others.
   */
  lemma {:induction false} Share(chunks: seq<Chunk>, path: string, a: nat, b: nat)
    requires a <= b <= |chunks|
    ensures var own, all := |OwnTexts(chunks[..b], path)| - |OwnTexts(chunks[..a], path)|,
                     |Docs(chunks[..b])| - |Docs(chunks[..a])|;
      0 <= own <= all && (own == all <==> AllOwn(chunks, path, a, b))
    decreases b
  {
    if a < b {
      var n := b - 1;
      Share(chunks, path, a, n);
      Grows(chunks, path, n, b);
      assert AllOwn(chunks, path, a, b) <==> AllOwn(chunks, path, a, n) && OwnOrEmpty(chunks[n], path);
    }
  }

  lemma {:induction false} OwnDocs(chunks: seq<Chunk>, path: string, a: nat, b: nat)
    requires a <= b <= |chunks| && AllOwn(chunks, path, a, b) && OwnTexts(chunks[..a], path) == []
    ensures Docs(chunks[..b]) == Docs(chunks[..a]) + OwnTexts(chunks[..b], path)
    decreases b
  {
    if a < b {
      var n := b - 1;
      OwnDocs(chunks, path, a, n);
      OwnSnoc(chunks, path, n, b);
      OwnDocsNext(Docs(chunks[..a]), OwnTexts(chunks[..n], path), Encode(chunks[n].text), Docs(chunks[..b]),
        OwnTexts(chunks[..b], path));
    }
  }

  lemma {:induction false} OwnSnoc(chunks: seq<Chunk>, path: string, n: nat, next: nat)
    requires n < |chunks| && next == n + 1 && OwnOrEmpty(chunks[n], path)
    ensures Docs(chunks[..next]) == Docs(chunks[..n]) + Encode(chunks[n].text)
    ensures OwnTexts(chunks[..next], path) == OwnTexts(chunks[..n], path) + Encode(chunks[n].text)
  {
    Snoc(chunks, path, n);
  }

  lemma {:induction false} OwnDocsNext(before: Bytes, own: Bytes, more: Bytes, docs: Bytes, next: Bytes)
    requires docs == (before + own) + more && next == own + more
    ensures docs == before + next
  {
  }

  /** Only chunks of the path with some text add to its texts. */
  lemma {:induction false} TextsAdd(chunks: seq<Chunk>, path: string, a: nat, b: nat)
    requires a <= b <= |chunks|
    ensures |OwnTexts(chunks[..a], path)| <= |OwnTexts(chunks[..b], path)|
    ensures |OwnTexts(chunks[..b], path)| == |OwnTexts(chunks[..a], path)| <==>
      forall i :: a <= i < b ==> !HasText(chunks, path, i)
    ensures |OwnTexts(chunks[..b], path)| == |OwnTexts(chunks[..a], path)| ==>
      OwnTexts(chunks[..b], path) == OwnTexts(chunks[..a], path)
    decreases b
  {
    if a < b {
      var n := b - 1;
      TextsAdd(chunks, path, a, n);
      Snoc(chunks, path, n);
      Grows(chunks, path, n, b);
      assert HasText(chunks, path, n) <==> |OwnTexts(chunks[..b], path)| > |OwnTexts(chunks[..n], path)|;
    }
  }

  ghost predicate IsRangeOf(chunks: seq<Chunk>, path: string, s: EntriesFile.Stats, a: nat) {
    HasText(chunks, path, a) && OwnTexts(chunks[..a], path) == [] && s.off == |Docs(chunks[..a])|
  }

  /** The statistics of a path: the length of its texts together, and where the first of them is. */
  lemma {:induction false} StatsAreRange(chunks: seq<Chunk>, path: string) returns (a: nat)
    requires |Docs(chunks)| < U64_LIMIT
    ensures path !in EntriesFile.StatsOf(chunks) ==> OwnTexts(chunks, path) == []
    ensures path in EntriesFile.StatsOf(chunks) ==> EntriesFile.StatsOf(chunks)[path].length == |OwnTexts(chunks, path)|
    ensures OwnTexts(chunks, path) != [] ==>
      path in EntriesFile.StatsOf(chunks) && IsRangeOf(chunks, path, EntriesFile.StatsOf(chunks)[path], a)
    decreases |chunks|
  {
    a := 0;
    if chunks != [] {
      var n := |chunks| - 1;
      var before := chunks[..n];
      assert chunks[..n + 1] == chunks;
      Snoc(chunks, path, n);
      a := StatsAreRange(before, path);
      if chunks[n].path != path {
        StatsElsewhere(chunks, path);
      } else {
        EndStats(chunks, n);
        Share(chunks, path, 0, n);
        if OwnTexts(before, path) == [] { a := n; }
      }
      if OwnTexts(before, path) != [] { assert before[..a] == chunks[..a]; }
    }
  }

  lemma {:induction false} LastText(chunks: seq<Chunk>, path: string, n: nat) returns (b: nat)
    requires n <= |chunks| && exists i :: 0 <= i < n && HasText(chunks, path, i)
    ensures b < n && HasText(chunks, path, b) && forall i :: b < i < n ==> !HasText(chunks, path, i)
  {
    b := n - 1;
    if !HasText(chunks, path, b) { b := LastText(chunks, path, n - 1); }
  }

  /** The first and the last text of the path. */
  ghost predicate AreEnds(chunks: seq<Chunk>, path: string, a: nat, b: nat) {
    && HasText(chunks, path, a) && HasText(chunks, path, b) && a <= b
    && forall i :: HasText(chunks, path, i) ==> a <= i <= b
  }

  lemma {:induction false} TogetherIsAllOwn(chunks: seq<Chunk>, path: string, a: nat, b: nat, end: nat)
    requires AreEnds(chunks, path, a, b) && end == b + 1
    ensures StandsTogether(chunks, path) <==> AllOwn(chunks, path, a, end)
  {
    if StandsTogether(chunks, path) {
      forall j | a <= j < end ensures OwnOrEmpty(chunks[j], path) {
        assert j == a || j == b || a < j < b;
      }
    }
  }

  /** The entry's range: from the first text on, as long as the texts together. */
  ghost predicate IsRange(chunks: seq<Chunk>, path: string, s: EntriesFile.Stats, a: nat, end: nat) {
    && a < end <= |chunks| && OwnTexts(chunks[..a], path) == [] &&
      OwnTexts(chunks[..end], path) == OwnTexts(chunks, path)
    && s.off == |Docs(chunks[..a])| && s.length == |OwnTexts(chunks, path)|
  }

  lemma {:induction false} CoveredIsAllOwn(chunks: seq<Chunk>, path: string, s: EntriesFile.Stats, a: nat, b: nat,
      end: nat)
    requires AreEnds(chunks, path, a, b) && end == b + 1 && IsRange(chunks, path, s, a, end) && InRange(chunks, s, b)
    ensures AllOwn(chunks, path, a, end)
  {
    Grows(chunks, path, b, end);
    assert |OwnTexts(chunks[..end], path)| == s.length && |OwnTexts(chunks[..a], path)| == 0;
    Share(chunks, path, a, end);
  }

  lemma {:induction false} TextIsCovered(chunks: seq<Chunk>, path: string, s: EntriesFile.Stats, a: nat, end: nat,
      i: nat, next: nat)
    requires IsRange(chunks, path, s, a, end) && AllOwn(chunks, path, a, end) && a <= i && next == i + 1 <= end
    ensures InRange(chunks, s, i)
  {
    Share(chunks, path, a, i);
    Share(chunks, path, a, end);
    Share(chunks, path, next, end);
    Grows(chunks, path, i, next);
  }

  lemma {:induction false} RangeHoldsTexts(chunks: seq<Chunk>, path: string, s: EntriesFile.Stats, a: nat, end: nat)
    requires IsRange(chunks, path, s, a, end) && AllOwn(chunks, path, a, end)
    ensures s.off + s.length <= |Docs(chunks)| && Docs(chunks)[s.off..s.off + s.length] == OwnTexts(chunks, path)
  {
    OwnDocs(chunks, path, a, end);
    DocsGoOn(chunks, end);
    MiddleOf(Docs(chunks), Docs(chunks[..a]), OwnTexts(chunks, path));
  }

  lemma {:induction false} MiddleOf(all: Bytes, before: Bytes, middle: Bytes)
    requires before + middle <= all
    ensures |before| + |middle| <= |all| && all[|before|..|before| + |middle|] == middle
  {
  }

  /** What an entry promises of its path. */
  ghost predicate RangeIsExact(chunks: seq<Chunk>, path: string, s: EntriesFile.Stats) {
    && (CoversTexts(chunks, path, s) <==> StandsTogether(chunks, path))
    && (StandsTogether(chunks, path) && s.length > 0 ==>
          s.off + s.length <= |Docs(chunks)| && Docs(chunks)[s.off..s.off + s.length] == OwnTexts(chunks, path))
  }

  lemma {:induction false} RangeBetween(chunks: seq<Chunk>, path: string, s: EntriesFile.Stats, a: nat, b: nat,
      end: nat)
    requires AreEnds(chunks, path, a, b) && end == b + 1 && IsRange(chunks, path, s, a, end)
    ensures RangeIsExact(chunks, path, s)
  {
    TogetherIsAllOwn(chunks, path, a, b, end);
    if AllOwn(chunks, path, a, end) {
      forall i | HasText(chunks, path, i) ensures InRange(chunks, s, i) {
        TextIsCovered(chunks, path, s, a, end, i, i + 1);
      }
      RangeHoldsTexts(chunks, path, s, a, end);
    } else if CoversTexts(chunks, path, s) {
      assert InRange(chunks, s, b);
      CoveredIsAllOwn(chunks, path, s, a, b, end);
    }
  }

  /**
   * The range of an entry covers every text of its path exactly when no text of another path stands between them,
   * and then it holds these texts and nothing else.
   */
  lemma {:induction false} RangeCoversTexts(chunks: seq<Chunk>, path: string)
    requires |Docs(chunks)| < U64_LIMIT && path in EntriesFile.StatsOf(chunks)
    ensures RangeIsExact(chunks, path, EntriesFile.StatsOf(chunks)[path])
  {
    var s := EntriesFile.StatsOf(chunks)[path];
    var a := StatsAreRange(chunks, path);
    if OwnTexts(chunks, path) == [] {
      NoTexts(chunks, path);
    } else {
      var b := EndsOfTexts(chunks, path, a);
      RangeBetween(chunks, path, s, a, b, b + 1);
    }
  }

  lemma {:induction false} NoTexts(chunks: seq<Chunk>, path: string)
    requires OwnTexts(chunks, path) == []
    ensures forall i :: !HasText(chunks, path, i)
  {
    assert chunks[..|chunks|] == chunks && chunks[..0] == [];
    TextsAdd(chunks, path, 0, |chunks|);
  }

  lemma {:induction false} EndsOfTexts(chunks: seq<Chunk>, path: string, a: nat) returns (b: nat)
    requires HasText(chunks, path, a) && OwnTexts(chunks[..a], path) == []
    ensures AreEnds(chunks, path, a, b) && OwnTexts(chunks[..b + 1], path) == OwnTexts(chunks, path)
  {
    assert chunks[..|chunks|] == chunks && chunks[..0] == [];
    TextsAdd(chunks, path, 0, a);
    b := LastText(chunks, path, |chunks|);
    TextsAdd(chunks, path, b + 1, |chunks|);
    forall i | HasText(chunks, path, i) ensures a <= i <= b {
    }
  }

  lemma {:induction false} DocsGoOn(chunks: seq<Chunk>, n: nat)
    requires n <= |chunks|
    ensures Docs(chunks[..n]) <= Docs(chunks)
    decreases |chunks|
  {
    if n < |chunks| {
      var before := chunks[..|chunks| - 1];
      DocsGoOn(before, n);
      assert before[..n] == chunks[..n];
      assert Docs(chunks) == Docs(before) + Encode(chunks[|chunks| - 1].text);
    } else {
      assert chunks[..n] == chunks;
    }
  }
}

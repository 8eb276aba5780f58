/** Hybrid retrieval over the chunks (crates/termlm-indexer/src/retrieve.rs). */
module Retrieve {
  import opened Wrappers
  import opened Ordering
  import opened Text
  import opened Chunks
  import opened Lexical

  // ---------- a query, and what a chunk scores ----------

  datatype Query = Query(
    text: string,
    topK: nat,
    minScore: real,
    hybrid: bool,
    lexical: bool,
    lexicalTopK: nat,
    commandBoost: real,
    flagBoost: real,
    sectionBoost: real,
    commandAware: bool
  )

  datatype Found = Found(chunk: Chunk, score: real)

  function SameIgnoringCase(a: string, b: string): bool { Lower(a) == Lower(b) }

  predicate IsOptionSection(name: string) {
    SameIgnoringCase(name, "OPTIONS") || SameIgnoringCase(name, "SYNOPSIS") || SameIgnoringCase(name, "EXAMPLES")
  }

  predicate IsFlagIn(token: string, text: string) {
    token != "" && token[0] == '-' && Find(text, token).Some?
  }

  /** What the command-aware mode adds to a chunk. */
  function Boost(q: Query, tokens: seq<string>, c: Chunk): real {
    if !q.commandAware then 0.0 else
      (if Lower(c.commandName) in tokens then q.commandBoost else 0.0)
      + (if IsOptionSection(c.sectionName) then q.sectionBoost else 0.0)
      + (if exists t :: t in tokens && IsFlagIn(t, c.text) then q.flagBoost else 0.0)
  }

  /** The lexical score of a row, zero when the index did not find it. */
  function LexicalScore(hits: seq<Hit>, id: nat): real {
    if hits == [] then 0.0
    else if hits[|hits| - 1].id == id then hits[|hits| - 1].score
    else LexicalScore(hits[..|hits| - 1], id)
  }

  /** The score of a row: lexical, plus the vector score when hybrid, plus the boosts. */
  function Fused(q: Query, tokens: seq<string>, hits: seq<Hit>, dot: nat -> real, id: nat, c: Chunk): real {
    LexicalScore(hits, id) + (if q.hybrid then dot(id) else 0.0) + Boost(q, tokens, c)
  }

  function HitIds(hits: seq<Hit>): set<nat> { set h | h in hits :: h.id }

  function Capped(q: Query, hits: seq<Hit>): seq<Hit> {
    if q.lexicalTopK > 0 && |hits| > q.lexicalTopK then hits[..q.lexicalTopK] else hits
  }

  function AllRows(n: nat): (r: set<nat>)
    ensures forall id: nat :: id in r <==> id < n
  {
    if n == 0 then {} else AllRows(n - 1) + {n - 1}
  }

  /** The rows that get scored. */
  function Candidates(q: Query, hits: seq<Hit>, rows: nat): set<nat> {
    if HitIds(hits) != {} then HitIds(hits)
    else if q.hybrid || !q.lexical then AllRows(rows)
    else {}
  }

  // ---------- a true top-k ----------

  datatype Rated = Rated(id: nat, chunk: Chunk, score: real)

  /** Higher scores first, then command names in order, then rows in order. */
  ghost predicate Ahead(a: Rated, b: Rated) {
    || a.score > b.score
    || (a.score == b.score && a.chunk.commandName != b.chunk.commandName &&
      StrLeq(a.chunk.commandName, b.chunk.commandName))
    || (a.score == b.score && a.chunk.commandName == b.chunk.commandName && a.id < b.id)
  }

  /** The first `k` of the passing rows in that order; all of them when there are fewer. */
  ghost predicate IsTopK(passing: set<Rated>, k: nat, best: seq<Rated>) {
    && |best| == (if |passing| < k then |passing| else k)
    && (forall i :: 0 <= i < |best| ==> best[i] in passing)
    && (forall i, j :: 0 <= i < j < |best| ==> Ahead(best[i], best[j]))
    && (forall r, i :: r in passing && r !in best && 0 <= i < |best| ==> Ahead(best[i], r))
  }

  /** The rows of a set that reach the minimum score, rated. */
  function Passing(q: Query, tokens: seq<string>, hits: seq<Hit>, dot: nat -> real, chunks: seq<Chunk>,
      rows: set<nat>): set<Rated> {
    set id | id in rows && id < |chunks| && Fused(q, tokens, hits, dot, id, chunks[id]) >= q.minScore
      :: Rated(id, chunks[id], Fused(q, tokens, hits, dot, id, chunks[id]))
  }

  function ToFound(): Rated -> Found { (r: Rated) => Found(r.chunk, r.score) }

  function FoundOrder(): (Found, Found) -> bool {
    (a: Found, b: Found) => a.score > b.score ||
      (a.score == b.score && StrLeq(a.chunk.commandName, b.chunk.commandName))
  }

  function RatedOrder(): (Rated, Rated) -> bool {
    (a: Rated, b: Rated) => a.score > b.score ||
      (a.score == b.score && StrLeq(a.chunk.commandName, b.chunk.commandName))
  }

  function RowOrder(): (Rated, Rated) -> bool { (a: Rated, b: Rated) => a.id < b.id }

  lemma {:induction false} RatedIsTotal()
    ensures TotalPreorder(RatedOrder())
  {
    forall a, b ensures RatedOrder()(a, b) ||
      RatedOrder()(b, a) { StrLeqTotal(a.chunk.commandName, b.chunk.commandName); }
    forall a, b, c | RatedOrder()(a, b) && RatedOrder()(b, c) ensures RatedOrder()(a, c) {
      if a.score == b.score ==
        c.score { StrLeqTransitive(a.chunk.commandName, b.chunk.commandName, c.chunk.commandName); }
    }
  }

  lemma {:induction false} RefinedIsAhead(a: Rated, b: Rated)
    requires Refined(RatedOrder(), RowOrder(), a, b)
    ensures Ahead(a, b)
  {
    var x, y := a.chunk.commandName, b.chunk.commandName;
    if a.score == b.score && x == y { StrLeqTotal(x, x); }
  }

  /** Sorted in row order and then stably by score and name, the first `k` are the top. */
  lemma {:induction false} SortedPrefixIsTopK(rated: seq<Rated>, passing: set<Rated>, k: nat)
    requires forall i, j :: 0 <= i < j < |rated| ==> rated[i].id < rated[j].id
    requires forall r :: r in rated <==> r in passing
    ensures var sorted := SortBy(RatedOrder(), rated);
      |sorted| == |passing| && IsTopK(passing, k, if |sorted| > k then sorted[..k] else sorted)
  {
    var sorted := SortBy(RatedOrder(), rated);
    RatedIsTotal();
    SortKeepsElements(RatedOrder(), rated);
    SortRefines(RatedOrder(), RowOrder(), rated);
    forall i, j | 0 <= i < j < |sorted| ensures Ahead(sorted[i], sorted[j]) {
      assert Refined(RatedOrder(), RowOrder(), sorted[i], sorted[j]);
      RefinedIsAhead(sorted[i], sorted[j]);
    }
    SizeOfElements(rated, passing);
    PrefixIsTop(sorted, passing, k);
  }

  lemma {:induction false} SizeOfElements(s: seq<Rated>, t: set<Rated>)
    requires forall i, j :: 0 <= i < j < |s| ==> s[i].id < s[j].id
    requires forall r :: r in s <==> r in t
    ensures |s| == |t|
  {
    if s != [] {
      assert s == [s[0]] + s[1..];
      assert s[0] in t && forall r :: r in s[1..] ==> r.id > s[0].id;
      forall r ensures r in s[1..] <==> r in t - {s[0]} {
        assert r in s <==> r == s[0] || r in s[1..];
      }
      SizeOfElements(s[1..], t - {s[0]});
    } else {
      assert t == {} by { assert forall r :: r in t ==> r in s; }
    }
  }

  lemma {:induction false} PrefixIsTop(sorted: seq<Rated>, passing: set<Rated>, k: nat)
    requires forall i, j :: 0 <= i < j < |sorted| ==> Ahead(sorted[i], sorted[j])
    requires (forall r :: r in sorted <==> r in passing) && |sorted| == |passing|
    ensures IsTopK(passing, k, if |sorted| > k then sorted[..k] else sorted)
  {
    var best := if |sorted| > k then sorted[..k] else sorted;
    forall i | 0 <= i < |best| ensures best[i] in passing { assert sorted[i] in sorted; }
    forall r, i | r in passing && r !in best && 0 <= i < |best| ensures Ahead(best[i], r) {
      forall j | 0 <= j < |best| ensures sorted[j] != r { assert best[j] in best; }
      var j :| 0 <= j < |sorted| && sorted[j] == r;
      assert j >= |best|;
      assert best[i] == sorted[i];
    }
  }

  /** No row outranks another and is outranked by it. */
  lemma {:induction false} AheadOneWay(a: Rated, b: Rated)
    requires Ahead(a, b)
    ensures !Ahead(b, a)
  {
    var x, y := a.chunk.commandName, b.chunk.commandName;
    if StrLeq(x, y) && StrLeq(y, x) { StrLeqAntisymmetric(x, y); }
  }

  /** There is one top-k. */
  lemma {:induction false} TopKIsUnique(passing: set<Rated>, k: nat, a: seq<Rated>, b: seq<Rated>)
    requires IsTopK(passing, k, a) && IsTopK(passing, k, b)
    ensures a == b
  {
    SameTop(passing, k, a, b, |a|);
    assert a[..|a|] == a && b[..|b|] == b;
  }

  lemma {:induction false} SameTop(passing: set<Rated>, k: nat, a: seq<Rated>, b: seq<Rated>, n: nat)
    requires IsTopK(passing, k, a) && IsTopK(passing, k, b) && n <= |a|
    ensures a[..n] == b[..n]
  {
    if n > 0 {
      SameTop(passing, k, a, b, n - 1);
      var i := n - 1;
      assert forall j :: 0 <= j < i ==> a[j] == a[..i][j] && b[j] == b[..i][j];
      assert a[i] == b[i] || Ahead(b[i], a[i]) by { NextAhead(passing, k, b, a, i); }
      assert a[i] == b[i] || Ahead(a[i], b[i]) by { NextAhead(passing, k, a, b, i); }
      assert a[i] == b[i] by { if Ahead(a[i], b[i]) { AheadOneWay(a[i], b[i]); } }
      assert a[..n] == a[..i] + [a[i]] && b[..n] == b[..i] + [b[i]];
    }
  }

  lemma {:induction false} NextAhead(passing: set<Rated>, k: nat, a: seq<Rated>, b: seq<Rated>, i: nat)
    requires IsTopK(passing, k, a) && IsTopK(passing, k, b) && i < |a|
    requires forall j :: 0 <= j < i ==> a[j] == b[j]
    ensures a[i] == b[i] || Ahead(a[i], b[i])
  {
    assert b[i] in passing;
    forall j | 0 <= j < i ensures a[j] != b[i] { AheadOneWay(b[j], b[i]); }
  }

  // ---------- the retriever ----------

  /** What the constructors insert: text, command name and section name of each row. */
  function ChunkDocs(alnum: Alnum, chunks: seq<Chunk>): seq<Doc> {
    if chunks == [] then [] else
      var i, c := |chunks| - 1, chunks[|chunks| - 1];
      ChunkDocs(alnum, chunks[..i]) +
        [Doc(i, Tokenize(alnum, c.text)), Doc(i, Tokenize(alnum, c.commandName)),
        Doc(i, Tokenize(alnum, c.sectionName))]
  }

  predicate HasWord(alnum: Alnum, c: Chunk, t: string) {
    t in Tokenize(alnum, c.text) || t in Tokenize(alnum, c.commandName) || t in Tokenize(alnum, c.sectionName)
  }

  /** Inserting text, command name and section name one after another posts a row under the tokens of each. */
  lemma {:induction false} InsertedWords(alnum: Alnum, chunks: seq<Chunk>, t: string, id: nat)
    ensures id in Posted(ChunkDocs(alnum, chunks), t) <==> id < |chunks| && HasWord(alnum, chunks[id], t)
  {
    if chunks != [] {
      var i, c := |chunks| - 1, chunks[|chunks| - 1];
      InsertedWords(alnum, chunks[..i], t, id);
      var d0 := ChunkDocs(alnum, chunks[..i]);
      var d1 := d0 + [Doc(i, Tokenize(alnum, c.text))];
      var d2 := d1 + [Doc(i, Tokenize(alnum, c.commandName))];
      PostedOneMore(d0, Doc(i, Tokenize(alnum, c.text)));
      PostedOneMore(d1, Doc(i, Tokenize(alnum, c.commandName)));
      PostedOneMore(d2, Doc(i, Tokenize(alnum, c.sectionName)));
      assert ChunkDocs(alnum, chunks) == d2 + [Doc(i, Tokenize(alnum, c.sectionName))];
    }
  }

  class HybridRetriever {
    const chunks: seq<Chunk>
    var lexical: LexicalIndex

    constructor (alnum: Alnum, chunks: seq<Chunk>)
      ensures fresh(lexical) && lexical.Valid()
      ensures this.chunks == chunks && lexical.docs == ChunkDocs(alnum, chunks)
    {
      var index := new LexicalIndex();
      for i := 0 to |chunks|
        invariant fresh(index) && index.Valid() && index.docs == ChunkDocs(alnum, chunks[..i])
      {
        assert chunks[..i + 1][..i] == chunks[..i];
        index.Insert(alnum, i, chunks[i].text);
        index.Insert(alnum, i, chunks[i].commandName);
        index.Insert(alnum, i, chunks[i].sectionName);
      }
      assert chunks[..|chunks|] == chunks;
      this.chunks, this.lexical := chunks, index;
    }

    /** Take an index loaded from elsewhere in place of the one built from the rows. */
    method SetLexicalIndex(index: LexicalIndex)
      requires index.Valid()
      modifies this
      ensures lexical == index && lexical.Valid()
    {
      lexical := index;
    }

    /**
     * The top-k of the candidates that reach the minimum score; `dot` is the vector score of a row against the query.
     * The index may be one loaded from elsewhere: ids beyond the rows are passed over.
     */
    method SearchWithEmbedding(alnum: Alnum, logs: Logs, q: Query, dot: nat -> real)
      returns (out: seq<Found>)
      requires lexical.Valid()
      ensures IsAnswer(logs, lexical.docs, q, Tokenize(alnum, q.text), Tokenize(alnum, Lower(q.text)), dot, chunks, out)
    {
      var tokens := Tokenize(alnum, Lower(q.text));
      var lexicalHits: seq<Hit> := [];
      if q.lexical {
        lexicalHits := lexical.Search(alnum, logs, q.text);
      }
      ghost var hits := lexicalHits;
      if q.lexicalTopK > 0 && |lexicalHits| > q.lexicalTopK {
        lexicalHits := lexicalHits[..q.lexicalTopK];
      }
      out := RankRows(q, tokens, lexicalHits, dot, chunks);
      assert lexicalHits == Capped(q, hits) && HitsFor(logs, lexical.docs, q, Tokenize(alnum, q.text), hits);
    }
  }

  /** The hits of the index, none when it is not asked. */
  ghost predicate HitsFor(logs: Logs, docs: seq<Doc>, q: Query, terms: seq<string>, hits: seq<Hit>) {
    if q.lexical then IsRanking(logs, docs, terms, hits) else hits == []
  }

  /** A list of what was found is a top-k of rated rows. */
  ghost predicate IsBest(passing: set<Rated>, k: nat, out: seq<Found>) {
    exists best :: IsTopK(passing, k, best) && out == Mapped(ToFound(), best)
  }

  /** The top-k of the candidates that reach the minimum score. */
  ghost predicate IsAnswer(logs: Logs, docs: seq<Doc>, q: Query, terms: seq<string>, tokens: seq<string>,
      dot: nat -> real, chunks: seq<Chunk>, out: seq<Found>) {
    exists hits :: HitsFor(logs, docs, q, terms, hits) &&
      IsBest(Passing(q, tokens, Capped(q, hits), dot, chunks, Candidates(q, Capped(q, hits), |chunks|)), q.topK, out)
  }

  /** The index, the query and the rows leave one answer. */
  lemma {:induction false} AnswerIsUnique(logs: Logs, docs: seq<Doc>, q: Query, terms: seq<string>, tokens: seq<string>,
      dot: nat -> real, chunks: seq<Chunk>,
                                          a: seq<Found>, b: seq<Found>)
    requires IsAnswer(logs, docs, q, terms, tokens, dot, chunks, a) &&
      IsAnswer(logs, docs, q, terms, tokens, dot, chunks, b)
    ensures a == b
  {
    var hits :| HitsFor(logs, docs, q, terms, hits) &&
      IsBest(Passing(q, tokens, Capped(q, hits), dot, chunks, Candidates(q, Capped(q, hits), |chunks|)), q.topK, a);
    var others :| HitsFor(logs, docs, q, terms, others) &&
      IsBest(Passing(q, tokens, Capped(q, others), dot, chunks, Candidates(q, Capped(q, others), |chunks|)), q.topK, b);
    if q.lexical { RankingIsUnique(logs, docs, terms, hits, others); }
    BestIsUnique(Passing(q, tokens, Capped(q, hits), dot, chunks, Candidates(q, Capped(q, hits), |chunks|)),
      q.topK, a, b);
  }

  lemma {:induction false} BestIsUnique(passing: set<Rated>, k: nat, a: seq<Found>, b: seq<Found>)
    requires IsBest(passing, k, a) && IsBest(passing, k, b)
    ensures a == b
  {
    var x :| IsTopK(passing, k, x) && a == Mapped(ToFound(), x);
    var y :| IsTopK(passing, k, y) && b == Mapped(ToFound(), y);
    TopKIsUnique(passing, k, x, y);
  }

  /** Candidates are gathered, scored, sorted and cut. */
  method RankRows(q: Query, tokens: seq<string>, hits: seq<Hit>, dot: nat -> real, chunks: seq<Chunk>)
      returns (out: seq<Found>)
    ensures IsBest(Passing(q, tokens, hits, dot, chunks, Candidates(q, hits, |chunks|)), q.topK, out)
  {
    if chunks == [] {
      NothingPasses(Passing(q, tokens, hits, dot, chunks, Candidates(q, hits, |chunks|)), q.topK);
      return [];
    }
    var candidates := GatherCandidates(q, hits, |chunks|);
    if candidates == {} {
      NothingPasses(Passing(q, tokens, hits, dot, chunks, candidates), q.topK);
      return [];
    }
    var ids := Ascending(candidates);
    assert ids[..|ids|] == ids && IdsUpTo(ids, |ids|) == candidates;
    var scored := ScoreRows(q, tokens, hits, dot, chunks, ids);
    out := TakeBest(scored, Passing(q, tokens, hits, dot, chunks, candidates), q.topK);
  }

  lemma {:induction false} NothingPasses(passing: set<Rated>, k: nat)
    requires passing == {}
    ensures IsBest(passing, k, [])
  {
    assert IsTopK(passing, k, []) && [] == Mapped(ToFound(), []);
  }

  /** The passing rows in row order, as what was found. */
  ghost predicate InRowOrder(rated: seq<Rated>, passing: set<Rated>) {
    && (forall i, j :: 0 <= i < j < |rated| ==> rated[i].id < rated[j].id)
    && (forall r :: r in rated <==> r in passing)
  }

  ghost predicate IsScored(scored: seq<Found>, passing: set<Rated>) {
    exists rated :: InRowOrder(rated, passing) && scored == Mapped(ToFound(), rated)
  }

  /** The rows the index found, or all rows when it found none and they may be ranked without it. */
  method GatherCandidates(q: Query, hits: seq<Hit>, rows: nat) returns (candidates: set<nat>)
    ensures candidates == Candidates(q, hits, rows)
  {
    candidates := GatherIds(hits);
    if candidates == {} && (q.hybrid || !q.lexical) {
      for i := 0 to rows
        invariant candidates == AllRows(i)
      {
        candidates := candidates + {i};
      }
    }
  }

  /** The stable sort and the cut. */
  method TakeBest(scored: seq<Found>, ghost passing: set<Rated>, topK: nat) returns (out: seq<Found>)
    requires IsScored(scored, passing)
    ensures IsBest(passing, topK, out)
  {
    CutIsBest(scored, passing, topK);
    out := SortBy(FoundOrder(), scored);
    if |out| > topK {
      out := out[..topK];
    }
  }

  lemma {:induction false} CutIsBest(scored: seq<Found>, passing: set<Rated>, topK: nat)
    requires IsScored(scored, passing)
    ensures var sorted :=
      SortBy(FoundOrder(), scored); IsBest(passing, topK, if |sorted| > topK then sorted[..topK] else sorted)
  {
    var rated :| InRowOrder(rated, passing) && scored == Mapped(ToFound(), rated);
    var sorted := SortBy(RatedOrder(), rated);
    SortMapped(ToFound(), RatedOrder(), FoundOrder(), rated);
    SortedPrefixIsTopK(rated, passing, topK);
    MappedPrefix(sorted, topK);
  }

  lemma {:induction false} MappedPrefix(s: seq<Rated>, k: nat)
    ensures Mapped(ToFound(), if |s| > k then s[..k] else s) == if |s| > k then Mapped(ToFound(), s)[..k]
      else Mapped(ToFound(), s)
  {
  }

  method GatherIds(hits: seq<Hit>) returns (ids: set<nat>)
    ensures ids == HitIds(hits)
  {
    ids := {};
    for i := 0 to |hits|
      invariant ids == HitIds(hits[..i])
    {
      assert hits[..i + 1] == hits[..i] + [hits[i]];
      ids := ids + {hits[i].id};
    }
    assert hits[..|hits|] == hits;
  }

  /** The map from rows to lexical scores. */
  method LexicalScores(hits: seq<Hit>) returns (scores: map<nat, real>)
    ensures forall id: nat :: LexicalScore(hits, id) == if id in scores then scores[id] else 0.0
  {
    scores := map[];
    for i := 0 to |hits|
      invariant forall id: nat :: LexicalScore(hits[..i], id) == if id in scores then scores[id] else 0.0
    {
      assert hits[..i + 1][..i] == hits[..i];
      scores := scores[hits[i].id := hits[i].score];
    }
    assert hits[..|hits|] == hits;
  }

  function IdsUpTo(ids: seq<nat>, k: nat): set<nat>
    requires k <= |ids|
  {
    set id | id in ids[..k]
  }

  /** The score of one row. */
  method FuseScore(q: Query, tokens: seq<string>, ghost hits: seq<Hit>, scores: map<nat, real>, dot: nat -> real,
      id: nat, c: Chunk) returns (fused: real)
    requires forall id: nat :: LexicalScore(hits, id) == if id in scores then scores[id] else 0.0
    ensures fused == Fused(q, tokens, hits, dot, id, c)
  {
    fused := if id in scores then scores[id] else 0.0;
    if q.hybrid {
      fused := fused + dot(id);
    }
    fused := fused + Boost(q, tokens, c);
  }

  method ScoreRows(q: Query, tokens: seq<string>, hits: seq<Hit>, dot: nat -> real, chunks: seq<Chunk>, ids: seq<nat>)
    returns (scored: seq<Found>)
    requires forall i, j :: 0 <= i < j < |ids| ==> ids[i] < ids[j]
    ensures IsScored(scored, Passing(q, tokens, hits, dot, chunks, IdsUpTo(ids, |ids|)))
  {
    var lexicalScores := LexicalScores(hits);
    scored := [];
    ghost var rated: seq<Rated> := [];
    for k := 0 to |ids|
      invariant scored == Mapped(ToFound(), rated)
      invariant InRowOrder(rated, Passing(q, tokens, hits, dot, chunks, IdsUpTo(ids, k)))
    {
      var id := ids[k];
      PassingNext(q, tokens, hits, dot, chunks, ids, k, rated);
      if id < |chunks| {
        var c := chunks[id];
        var fused := FuseScore(q, tokens, hits, lexicalScores, dot, id, c);
        if fused >= q.minScore {
          scored := scored + [Found(c, fused)];
          rated := rated + [Rated(id, c, fused)];
        }
      }
    }
  }

  /** One row more: it passes, after all that passed, or nothing changes. */
  lemma {:induction false} PassingNext(q: Query, tokens: seq<string>, hits: seq<Hit>, dot: nat -> real,
      chunks: seq<Chunk>, ids: seq<nat>, k: nat, rated: seq<Rated>)
    requires k < |ids| && forall i, j :: 0 <= i < j < |ids| ==> ids[i] < ids[j]
    requires InRowOrder(rated, Passing(q, tokens, hits, dot, chunks, IdsUpTo(ids, k)))
    ensures var id, passing := ids[k], Passing(q, tokens, hits, dot, chunks, IdsUpTo(ids, k + 1));
      if id < |chunks| && Fused(q, tokens, hits, dot, id, chunks[id]) >= q.minScore
        then InRowOrder(rated + [Rated(id, chunks[id], Fused(q, tokens, hits, dot, id, chunks[id]))], passing)
        else InRowOrder(rated, passing)
  {
    var id, rows := ids[k], IdsUpTo(ids, k);
    assert ids[..k + 1] == ids[..k] + [id];
    assert IdsUpTo(ids, k + 1) == rows + {id};
    forall r | r in Passing(q, tokens, hits, dot, chunks, rows) ensures r.id < id {
      assert r.id in ids[..k];
    }
    OneRowMore(q, tokens, hits, dot, chunks, rows, id);
    if id < |chunks| && Fused(q, tokens, hits, dot, id, chunks[id]) >= q.minScore {
      LastInOrder(rated, Passing(q, tokens, hits, dot, chunks, rows),
        Rated(id, chunks[id], Fused(q, tokens, hits, dot, id, chunks[id])));
    }
  }

  lemma {:induction false} OneRowMore(q: Query, tokens: seq<string>, hits: seq<Hit>, dot: nat -> real,
      chunks: seq<Chunk>, rows: set<nat>, id: nat)
    ensures Passing(q, tokens, hits, dot, chunks, rows + {id}) ==
            Passing(q, tokens, hits, dot, chunks, rows) +
            if id < |chunks| && Fused(q, tokens, hits, dot, id, chunks[id]) >= q.minScore
              then {Rated(id, chunks[id], Fused(q, tokens, hits, dot, id, chunks[id]))} else {}
  {
  }

  lemma {:induction false} LastInOrder(rated: seq<Rated>, passing: set<Rated>, r: Rated)
    requires InRowOrder(rated, passing) && forall x :: x in passing ==> x.id < r.id
    ensures InRowOrder(rated + [r], passing + {r})
  {
    var more := rated + [r];
    forall i, j | 0 <= i < j < |more| ensures more[i].id < more[j].id {
      if j == |rated| { assert rated[i] in rated; }
    }
  }

  // ---------- pruning against a full scan ----------

  /** What a full scan gives a row: the recount of the index, the vector score and the boosts. */
  function FullScore(q: Query, logs: Logs, docs: seq<Doc>, terms: seq<string>, tokens: seq<string>, dot: nat -> real,
      id: nat, c: Chunk): real {
    (if exists t :: t in terms && id in Posted(docs, t) then Score(logs, docs, terms, id) else 0.0) +
      (if q.hybrid then dot(id) else 0.0) + Boost(q, tokens, c)
  }

  function FullScan(q: Query, logs: Logs, docs: seq<Doc>, terms: seq<string>, tokens: seq<string>, dot: nat -> real,
      chunks: seq<Chunk>): set<Rated> {
    set id | id in AllRows(|chunks|) && FullScore(q, logs, docs, terms, tokens, dot, id, chunks[id]) >= q.minScore
      :: Rated(id, chunks[id], FullScore(q, logs, docs, terms, tokens, dot, id, chunks[id]))
  }

  ghost predicate LosesNothing(q: Query, logs: Logs, docs: seq<Doc>, terms: seq<string>, tokens: seq<string>,
      hits: seq<Hit>, dot: nat -> real, chunks: seq<Chunk>) {
    Passing(q, tokens, Capped(q, hits), dot, chunks, Candidates(q, Capped(q, hits), |chunks|)) ==
      FullScan(q, logs, docs, terms, tokens, dot, chunks)
  }

  lemma {:induction false} LexicalScoreIsRecount(logs: Logs, docs: seq<Doc>, terms: seq<string>, hits: seq<Hit>,
      id: nat)
    requires IsRanking(logs, docs, terms, hits)
    ensures LexicalScore(hits, id) == if SharesToken(docs, terms, id) then Score(logs, docs, terms, id) else 0.0
    ensures id in HitIds(hits) <==> SharesToken(docs, terms, id)
  {
    if SharesToken(docs, terms, id) {
      var k :| 0 <= k < |hits| && hits[k].id == id;
      assert hits[k] in hits;
      LexicalScoreAt(hits, k, logs, docs, terms);
    } else {
      assert forall k :: 0 <= k < |hits| ==> hits[k].id != id;
      NoLexicalScore(hits, id);
    }
  }

  lemma {:induction false} NoLexicalScore(hits: seq<Hit>, id: nat)
    requires forall k :: 0 <= k < |hits| ==> hits[k].id != id
    ensures LexicalScore(hits, id) == 0.0
  {
    if hits != [] { NoLexicalScore(hits[..|hits| - 1], id); }
  }

  lemma {:induction false} LexicalScoreAt(hits: seq<Hit>, k: nat, logs: Logs, docs: seq<Doc>, terms: seq<string>)
    requires k < |hits|
    requires forall i :: 0 <= i < |hits| ==> hits[i].score == Score(logs, docs, terms, hits[i].id)
    ensures LexicalScore(hits, hits[k].id) == hits[k].score
  {
    if k < |hits| - 1 && hits[|hits| - 1].id != hits[k].id {
      LexicalScoreAt(hits[..|hits| - 1], k, logs, docs, terms);
    }
  }

  /**
   * With the cap off, what a full scan finds and pruning does not are the rows without a hit that still reach the
   * minimum.
   */
  lemma {:induction false} WhatPruningLoses(q: Query, logs: Logs, docs: seq<Doc>, terms: seq<string>,
      tokens: seq<string>, hits: seq<Hit>, dot: nat -> real, chunks: seq<Chunk>)
    requires q.lexical && q.lexicalTopK == 0 && IsRanking(logs, docs, terms, hits)
    ensures LosesNothing(q, logs, docs, terms, tokens, hits, dot, chunks) <==>
            || (q.hybrid && hits == [])
            || forall id | 0 <= id < |chunks| && !SharesToken(docs, terms, id) ::
                 (if q.hybrid then dot(id) else 0.0) + Boost(q, tokens, chunks[id]) < q.minScore
  {
    var n := |chunks|;
    forall id | 0 <= id < n
      ensures Fused(q, tokens, hits, dot, id, chunks[id]) ==
        FullScore(q, logs, docs, terms, tokens, dot, id, chunks[id])
      ensures id in HitIds(hits) <==> SharesToken(docs, terms, id)
    {
      LexicalScoreIsRecount(logs, docs, terms, hits, id);
    }
    assert hits == [] || hits[0].id in HitIds(hits);
    LostRows(q, logs, docs, terms, tokens, hits, dot, chunks, Candidates(q, hits, n));
    UnseenScores(q, logs, docs, terms, tokens, dot, chunks);
  }

  lemma {:induction false} UnseenScores(q: Query, logs: Logs, docs: seq<Doc>, terms: seq<string>, tokens: seq<string>,
      dot: nat -> real, chunks: seq<Chunk>)
    ensures forall id | 0 <= id < |chunks| && !SharesToken(docs, terms, id) ::
      FullScore(q, logs, docs, terms, tokens, dot, id, chunks[id]) ==
        (if q.hybrid then dot(id) else 0.0) + Boost(q, tokens, chunks[id])
  {
  }

  lemma {:induction false} LostRows(q: Query, logs: Logs, docs: seq<Doc>, terms: seq<string>, tokens: seq<string>,
      hits: seq<Hit>, dot: nat -> real, chunks: seq<Chunk>, rows: set<nat>)
    requires forall id | 0 <= id < |chunks| ::
      Fused(q, tokens, hits, dot, id, chunks[id]) == FullScore(q, logs, docs, terms, tokens, dot, id, chunks[id])
    ensures Passing(q, tokens, hits, dot, chunks, rows) == FullScan(q, logs, docs, terms, tokens, dot, chunks) <==>
            forall id | 0 <= id < |chunks| && id !in rows ::
              FullScore(q, logs, docs, terms, tokens, dot, id, chunks[id]) < q.minScore
  {
    var pruned, full := Passing(q, tokens, hits, dot, chunks, rows),
      FullScan(q, logs, docs, terms, tokens, dot, chunks);
    forall id | 0 <= id < |chunks|
      ensures var r := Rated(id, chunks[id], FullScore(q, logs, docs, terms, tokens, dot, id, chunks[id]));
        (r in full <==> r.score >= q.minScore) && (r in pruned <==> r.score >= q.minScore && id in rows)
    {
    }
    assert forall r :: r in full ==>
      r.id < |chunks| && r ==
      Rated(r.id, chunks[r.id], FullScore(q, logs, docs, terms, tokens, dot, r.id, chunks[r.id]));
    assert forall r :: r in pruned ==>
      r.id < |chunks| && r ==
      Rated(r.id, chunks[r.id], FullScore(q, logs, docs, terms, tokens, dot, r.id, chunks[r.id]));
  }

  /** Whatever the rows and the vectors hold. */
  ghost predicate PruningIsSafe(alnum: Alnum, logs: Logs, q: Query) {
    forall hits, dot, chunks | IsRanking(logs, ChunkDocs(alnum, chunks), Tokenize(alnum, q.text), hits) ::
      LosesNothing(q, logs, ChunkDocs(alnum, chunks), Tokenize(alnum, q.text), Tokenize(alnum, Lower(q.text)), hits,
        dot, chunks)
  }

  /**
   * Without cap and boosts, pruning is safe without vectors when the minimum is positive, and with vectors only when
   * the query has no token.
   */
  lemma {:induction false} SettingsThatPruneSafely(alnum: Alnum, logs: Logs, q: Query)
    requires q.lexical && !q.commandAware && q.lexicalTopK == 0
    ensures PruningIsSafe(alnum, logs, q) <==> if q.hybrid then Tokenize(alnum, q.text) == [] else q.minScore > 0.0
  {
    if q.hybrid && Tokenize(alnum, q.text) != [] {
      VectorsFindMore(alnum, logs, q);
    } else if !q.hybrid && q.minScore <= 0.0 {
      ZeroScoresPass(alnum, logs, q);
    } else {
      var terms, tokens := Tokenize(alnum, q.text), Tokenize(alnum, Lower(q.text));
      forall hits, dot, chunks | IsRanking(logs, ChunkDocs(alnum, chunks), terms, hits)
        ensures LosesNothing(q, logs, ChunkDocs(alnum, chunks), terms, tokens, hits, dot, chunks)
      {
        NothingIsLost(logs, q, ChunkDocs(alnum, chunks), terms, tokens, hits, dot, chunks);
      }
    }
  }

  lemma {:induction false} NothingIsLost(logs: Logs, q: Query, docs: seq<Doc>, terms: seq<string>, tokens: seq<string>,
      hits: seq<Hit>, dot: nat -> real, chunks: seq<Chunk>)
    requires q.lexical && !q.commandAware && q.lexicalTopK == 0 && IsRanking(logs, docs, terms, hits)
    requires if q.hybrid then terms == [] else q.minScore > 0.0
    ensures LosesNothing(q, logs, docs, terms, tokens, hits, dot, chunks)
  {
    WhatPruningLoses(q, logs, docs, terms, tokens, hits, dot, chunks);
    if terms == [] {
      assert forall id :: !SharesToken(docs, terms, id);
      OnlyTheEmptyRanking(logs, docs, terms, hits);
    }
    assert forall id | 0 <= id < |chunks| :: Boost(q, tokens, chunks[id]) == 0.0;
  }

  function TextChunk(text: string): Chunk { Chunk("", "", "", "", 0, 1, "", Time(0, 0), text) }

  /** A row without text shares no token with any query. */
  lemma {:induction false} BlankRow(alnum: Alnum, chunks: seq<Chunk>, id: nat, terms: seq<string>)
    requires id < |chunks| && chunks[id] == TextChunk("")
    ensures !SharesToken(ChunkDocs(alnum, chunks), terms, id)
  {
    assert Tokenize(alnum, "") == [];
    forall t | t in terms ensures id !in Posted(ChunkDocs(alnum, chunks), t) { InsertedWords(alnum, chunks, t, id); }
  }

  /** A row with the text of the query, and one without text that the vectors rate at the minimum. */
  lemma {:induction false} VectorsFindMore(alnum: Alnum, logs: Logs, q: Query)
    requires q.lexical && !q.commandAware && q.lexicalTopK == 0 && q.hybrid && Tokenize(alnum, q.text) != []
    ensures !PruningIsSafe(alnum, logs, q)
  {
    var terms := Tokenize(alnum, q.text);
    var chunks, dot := [TextChunk(q.text), TextChunk("")], (id: nat) => q.minScore;
    var hits := RankingExists(logs, ChunkDocs(alnum, chunks), terms);
    FirstRowIsHit(alnum, logs, chunks, terms, hits);
    BlankRow(alnum, chunks, 1, terms);
    ChunkIsLost(alnum, logs, q, hits, dot, chunks, 1);
  }

  lemma {:induction false} ChunkIsLost(alnum: Alnum, logs: Logs, q: Query, hits: seq<Hit>, dot: nat -> real,
      chunks: seq<Chunk>, id: nat)
    requires q.lexical && !q.commandAware && q.lexicalTopK == 0 &&
      IsRanking(logs, ChunkDocs(alnum, chunks), Tokenize(alnum, q.text), hits)
    requires id < |chunks| && !SharesToken(ChunkDocs(alnum, chunks), Tokenize(alnum, q.text), id) &&
      (q.hybrid ==> hits != [])
    requires q.minScore <= if q.hybrid then dot(id) else 0.0
    ensures !PruningIsSafe(alnum, logs, q)
  {
    RowIsLost(q, logs, ChunkDocs(alnum, chunks), Tokenize(alnum, q.text), Tokenize(alnum, Lower(q.text)), hits, dot,
      chunks, id);
  }

  lemma {:induction false} FirstRowIsHit(alnum: Alnum, logs: Logs, chunks: seq<Chunk>, terms: seq<string>,
      hits: seq<Hit>)
    requires chunks != [] && terms != [] && terms == Tokenize(alnum, chunks[0].text) &&
      IsRanking(logs, ChunkDocs(alnum, chunks), terms, hits)
    ensures hits != []
  {
    assert terms[0] in terms;
    InsertedWords(alnum, chunks, terms[0], 0);
    assert SharesToken(ChunkDocs(alnum, chunks), terms, 0);
  }

  /** A row without a hit that reaches the minimum all the same. */
  lemma {:induction false} RowIsLost(q: Query, logs: Logs, docs: seq<Doc>, terms: seq<string>, tokens: seq<string>,
      hits: seq<Hit>, dot: nat -> real, chunks: seq<Chunk>, id: nat)
    requires q.lexical && !q.commandAware && q.lexicalTopK == 0 && IsRanking(logs, docs, terms, hits)
    requires id < |chunks| && !SharesToken(docs, terms, id) && (q.hybrid ==> hits != [])
    requires q.minScore <= if q.hybrid then dot(id) else 0.0
    ensures !LosesNothing(q, logs, docs, terms, tokens, hits, dot, chunks)
  {
    assert Boost(q, tokens, chunks[id]) == 0.0;
    WhatPruningLoses(q, logs, docs, terms, tokens, hits, dot, chunks);
  }

  /** A row that scores nothing, which is enough. */
  lemma {:induction false} ZeroScoresPass(alnum: Alnum, logs: Logs, q: Query)
    requires q.lexical && !q.commandAware && q.lexicalTopK == 0 && !q.hybrid && q.minScore <= 0.0
    ensures !PruningIsSafe(alnum, logs, q)
  {
    var terms := Tokenize(alnum, q.text);
    var chunks, dot := [TextChunk("")], (id: nat) => 0.0;
    var hits := RankingExists(logs, ChunkDocs(alnum, chunks), terms);
    BlankRow(alnum, chunks, 0, terms);
    ChunkIsLost(alnum, logs, q, hits, dot, chunks, 0);
  }
}

/**
 * What the hybrid retriever answers, row by row: which rows it rates, what a row scores, and which rows are left out
 * (crates/termlm-indexer/src/retrieve.rs).
 */
module Answers {
  import opened Wrappers
  import opened Ordering
  import opened Text
  import opened Chunks
  import opened Lexical
  import opened Retrieve

  // ---------- what a row scores ----------

  /** The text is the word, which is in small letters, but for case. */
  predicate SaysWord(s: string, word: string) {
    |s| == |word| && forall i :: 0 <= i < |s| ==> LowerChar(s[i]) == word[i]
  }

  /** The row is among the hits that count: the first `lexicalTopK` of them, or all when that is zero. */
  predicate IsHit(q: Query, hits: seq<Hit>, id: nat) {
    exists k :: 0 <= k < |hits| && (q.lexicalTopK == 0 || k < q.lexicalTopK) && hits[k].id == id
  }

  /** The parts of a score. */
  datatype Parts = Parts(lexical: real, vector: real, command: real, section: real, flag: real)

  /** The name of the command is a token of the query. */
  predicate NamesCommand(tokens: seq<string>, c: Chunk) {
    exists t :: t in tokens && t == Lower(c.commandName)
  }

  predicate IsAboutOptions(c: Chunk) {
    SaysWord(c.sectionName, "options") || SaysWord(c.sectionName, "synopsis") || SaysWord(c.sectionName, "examples")
  }

  /** A token of the query that begins with a dash stands somewhere in the text. */
  ghost predicate HasFlag(tokens: seq<string>, c: Chunk) {
    exists t, i :: t in tokens && |t| > 0 && t[0] == '-' && OccursAt(c.text, t, i)
  }

  ghost predicate AreBoosts(q: Query, tokens: seq<string>, c: Chunk, p: Parts) {
    && p.command == (if q.commandAware && NamesCommand(tokens, c) then q.commandBoost else 0.0)
    && p.section == (if q.commandAware && IsAboutOptions(c) then q.sectionBoost else 0.0)
    && p.flag == (if q.commandAware && HasFlag(tokens, c) then q.flagBoost else 0.0)
  }

  /** The lexical score of a hit, the vector score when they are on, and three boosts. */
  ghost predicate AreParts(q: Query, tokens: seq<string>, hits: seq<Hit>, dot: nat -> real, id: nat, c: Chunk,
      p: Parts) {
    && (IsHit(q, hits, id) ==> exists k :: 0 <= k < |hits| && hits[k] == Hit(id, p.lexical))
    && (!IsHit(q, hits, id) ==> p.lexical == 0.0)
    && p.vector == (if q.hybrid then dot(id) else 0.0)
    && AreBoosts(q, tokens, c, p)
  }

  function Sum(p: Parts): real { p.lexical + p.vector + p.command + p.section + p.flag }

  ghost predicate Scores(q: Query, tokens: seq<string>, hits: seq<Hit>, dot: nat -> real, id: nat, c: Chunk,
      score: real) {
    exists p :: AreParts(q, tokens, hits, dot, id, c, p) && score == Sum(p)
  }

  /** Hits with each id once. */
  ghost predicate OneHitEach(hits: seq<Hit>) {
    forall i, j :: 0 <= i < j < |hits| ==> hits[i].id != hits[j].id
  }

  lemma {:induction false} SaysWordMeans(s: string, other: string, word: string)
    requires Lower(other) == word
    ensures SameIgnoringCase(s, other) <==> SaysWord(s, word)
  {
  }

  lemma {:induction false} OptionSectionMeans(c: Chunk)
    ensures IsOptionSection(c.sectionName) <==> IsAboutOptions(c)
  {
    assert Lower("OPTIONS") == "options" && Lower("SYNOPSIS") == "synopsis" && Lower("EXAMPLES") == "examples";
    SaysWordMeans(c.sectionName, "OPTIONS", "options");
    SaysWordMeans(c.sectionName, "SYNOPSIS", "synopsis");
    SaysWordMeans(c.sectionName, "EXAMPLES", "examples");
  }

  lemma {:induction false} FlagMeans(tokens: seq<string>, c: Chunk)
    ensures (exists t :: t in tokens && IsFlagIn(t, c.text)) <==> HasFlag(tokens, c)
  {
    forall t | t in tokens ensures IsFlagIn(t, c.text) <==>
      t != "" && t[0] == '-' && exists i: nat :: OccursAt(c.text, t, i) {
      FindIsLeftmost(c.text, t);
    }
  }

  lemma {:induction false} BoostMeans(q: Query, tokens: seq<string>, c: Chunk) returns (p: Parts)
    ensures AreBoosts(q, tokens, c, p) && Boost(q, tokens, c) == p.command + p.section + p.flag
    ensures p.lexical == p.vector == 0.0
  {
    OptionSectionMeans(c);
    FlagMeans(tokens, c);
    p := Parts(0.0, 0.0,
      if q.commandAware && Lower(c.commandName) in tokens then q.commandBoost else 0.0,
      if q.commandAware && IsOptionSection(c.sectionName) then q.sectionBoost else 0.0,
      if q.commandAware && (exists t :: t in tokens && IsFlagIn(t, c.text)) then q.flagBoost else 0.0);
  }

  lemma {:induction false} HitScore(hits: seq<Hit>, id: nat)
    ensures id in HitIds(hits) ==> exists k :: 0 <= k < |hits| && hits[k] == Hit(id, LexicalScore(hits, id))
    ensures id !in HitIds(hits) ==> LexicalScore(hits, id) == 0.0
  {
    if hits != [] {
      var before, last := hits[..|hits| - 1], hits[|hits| - 1];
      assert hits == before + [last];
      HitScore(before, id);
      assert id in HitIds(hits) <==> id in HitIds(before) || last.id == id;
      if last.id == id {
        assert hits[|hits| - 1] == Hit(id, LexicalScore(hits, id));
      } else if id in HitIds(before) {
        var k :| 0 <= k < |before| && before[k] == Hit(id, LexicalScore(before, id));
        assert hits[k] == Hit(id, LexicalScore(hits, id));
      }
    }
  }

  lemma {:induction false} CappedHits(q: Query, hits: seq<Hit>, id: nat)
    ensures id in HitIds(Capped(q, hits)) <==> IsHit(q, hits, id)
    ensures forall k :: 0 <= k < |Capped(q, hits)| ==> Capped(q, hits)[k] in hits
  {
    var some := Capped(q, hits);
    if id in HitIds(some) {
      var h :| h in some && h.id == id;
      var k :| 0 <= k < |some| && some[k] == h;
      assert hits[k] == h;
    }
    if IsHit(q, hits, id) {
      var k :| 0 <= k < |hits| && (q.lexicalTopK == 0 || k < q.lexicalTopK) && hits[k].id == id;
      assert some[k] == hits[k];
    }
  }

  lemma {:induction false} FusedScores(q: Query, tokens: seq<string>, hits: seq<Hit>, dot: nat -> real, id: nat,
      c: Chunk)
    ensures Scores(q, tokens, hits, dot, id, c, Fused(q, tokens, Capped(q, hits), dot, id, c))
  {
    var p := BoostMeans(q, tokens, c);
    var lexical := LexicalScore(Capped(q, hits), id);
    var all := p.(lexical := lexical, vector := if q.hybrid then dot(id) else 0.0);
    CappedHits(q, hits, id);
    HitScore(Capped(q, hits), id);
    if IsHit(q, hits, id) {
      var some := Capped(q, hits);
      var k :| 0 <= k < |some| && some[k] == Hit(id, lexical);
      assert hits[k] == Hit(id, lexical);
    }
    assert AreParts(q, tokens, hits, dot, id, c, all);
  }

  /** A row has one score. */
  lemma {:induction false} OneScore(q: Query, tokens: seq<string>, hits: seq<Hit>, dot: nat -> real, id: nat, c: Chunk,
      a: real, b: real)
    requires OneHitEach(hits) && Scores(q, tokens, hits, dot, id, c, a) && Scores(q, tokens, hits, dot, id, c, b)
    ensures a == b
  {
    var x :| AreParts(q, tokens, hits, dot, id, c, x) && a == Sum(x);
    var y :| AreParts(q, tokens, hits, dot, id, c, y) && b == Sum(y);
    assert x.lexical == y.lexical;
  }

  // ---------- which rows are rated ----------

  /** The rows with a hit; all rows when there is none and vectors are on or the index was not asked. */
  ghost predicate IsRated(q: Query, hits: seq<Hit>, rows: nat, id: nat) {
    id < rows && (IsHit(q, hits, id) || ((forall other :: !IsHit(q, hits, other)) && (q.hybrid || !q.lexical)))
  }

  lemma {:induction false} CandidatesMean(q: Query, hits: seq<Hit>, rows: nat, id: nat)
    ensures id < rows && id in Candidates(q, Capped(q, hits), rows) <==> IsRated(q, hits, rows, id)
  {
    CappedHits(q, hits, id);
    var ids := HitIds(Capped(q, hits));
    forall other ensures other in ids <==> IsHit(q, hits, other) { CappedHits(q, hits, other); }
    if ids != {} {
      var other :| other in ids;
      assert IsHit(q, hits, other);
    }
  }

  /** A row is rated, and scores enough. */
  ghost predicate Passes(q: Query, tokens: seq<string>, hits: seq<Hit>, dot: nat -> real, chunks: seq<Chunk>,
      r: Rated) {
    && IsRated(q, hits, |chunks|, r.id) && r.chunk == chunks[r.id] && r.score >= q.minScore
    && Scores(q, tokens, hits, dot, r.id, r.chunk, r.score)
  }

  lemma {:induction false} PassingMeans(q: Query, tokens: seq<string>, hits: seq<Hit>, dot: nat -> real,
      chunks: seq<Chunk>, r: Rated)
    requires OneHitEach(hits)
    ensures r in Passing(q, tokens, Capped(q, hits), dot, chunks, Candidates(q, Capped(q, hits), |chunks|)) <==>
      Passes(q, tokens, hits, dot, chunks, r)
  {
    var rows, some := Candidates(q, Capped(q, hits), |chunks|), Capped(q, hits);
    CandidatesMean(q, hits, |chunks|, r.id);
    if r.id < |chunks| {
      var fused := Fused(q, tokens, some, dot, r.id, chunks[r.id]);
      InPassing(q, tokens, some, dot, chunks, rows, r, fused);
      PassesMean(q, tokens, hits, dot, chunks, r, fused);
    }
  }

  lemma {:induction false} PassesMean(q: Query, tokens: seq<string>, hits: seq<Hit>, dot: nat -> real,
      chunks: seq<Chunk>, r: Rated, fused: real)
    requires OneHitEach(hits) && r.id < |chunks|
    requires fused == Fused(q, tokens, Capped(q, hits), dot, r.id, chunks[r.id])
    ensures Passes(q, tokens, hits, dot, chunks, r) <==>
      IsRated(q, hits, |chunks|, r.id) && r == Rated(r.id, chunks[r.id], fused) && fused >= q.minScore
  {
    FusedScores(q, tokens, hits, dot, r.id, chunks[r.id]);
    if Scores(q, tokens, hits, dot, r.id, chunks[r.id], r.score) {
      OneScore(q, tokens, hits, dot, r.id, chunks[r.id], r.score, fused);
    }
  }

  lemma {:induction false} InPassing(q: Query, tokens: seq<string>, hits: seq<Hit>, dot: nat -> real,
      chunks: seq<Chunk>,
      rows: set<nat>, r: Rated, fused: real)
    requires r.id < |chunks| && fused == Fused(q, tokens, hits, dot, r.id, chunks[r.id])
    ensures r in Passing(q, tokens, hits, dot, chunks, rows) <==>
      r.id in rows && r == Rated(r.id, chunks[r.id], fused) && fused >= q.minScore
  {
  }

  /** The hits count in the order of the ranking: those that are cut off score no higher. */
  lemma {:induction false} RankingHasOneHitEach(logs: Logs, docs: seq<Doc>, query: seq<string>, hits: seq<Hit>)
    requires IsRanking(logs, docs, query, hits)
    ensures OneHitEach(hits)
  {
    forall i, j | 0 <= i < j < |hits| ensures hits[i].id != hits[j].id {
      assert Before(hits[i], hits[j]);
    }
  }

  /** The best of the rows that pass, in order: those left out come after all that are in, and only for want of room. */
  ghost predicate AreBest(q: Query, tokens: seq<string>, hits: seq<Hit>, dot: nat -> real, chunks: seq<Chunk>,
      best: seq<Rated>) {
    && |best| <= q.topK
    && (forall i :: 0 <= i < |best| ==> Passes(q, tokens, hits, dot, chunks, best[i]))
    && (forall i, j :: 0 <= i < j < |best| ==> Ahead(best[i], best[j]))
    && (forall r :: Passes(q, tokens, hits, dot, chunks, r) && r !in best ==>
          |best| == q.topK && forall i :: 0 <= i < |best| ==> Ahead(best[i], r))
  }

  /** Every answer, row by row. */
  lemma {:induction false} AnswerMeans(logs: Logs, docs: seq<Doc>, q: Query, terms: seq<string>, tokens: seq<string>,
      dot: nat -> real, chunks: seq<Chunk>, out: seq<Found>)
    returns (hits: seq<Hit>, best: seq<Rated>)
    requires IsAnswer(logs, docs, q, terms, tokens, dot, chunks, out)
    ensures HitsFor(logs, docs, q, terms, hits) && AreBest(q, tokens, hits, dot, chunks, best)
    ensures |out| == |best| && forall i :: 0 <= i < |out| ==> out[i] == Found(best[i].chunk, best[i].score)
  {
    hits :| HitsFor(logs, docs, q, terms, hits) &&
      IsBest(Passing(q, tokens, Capped(q, hits), dot, chunks, Candidates(q, Capped(q, hits), |chunks|)), q.topK, out);
    if q.lexical { RankingHasOneHitEach(logs, docs, terms, hits); }
    var passing := Passing(q, tokens, Capped(q, hits), dot, chunks, Candidates(q, Capped(q, hits), |chunks|));
    forall r ensures r in passing <==> Passes(q, tokens, hits, dot, chunks, r) {
      PassingMeans(q, tokens, hits, dot, chunks, r);
    }
    best :| IsTopK(passing, q.topK, best) && out == Mapped(ToFound(), best);
    TopIsBest(q, tokens, hits, dot, chunks, passing, best);
  }

  lemma {:induction false} TopIsBest(q: Query, tokens: seq<string>, hits: seq<Hit>, dot: nat -> real,
      chunks: seq<Chunk>, passing: set<Rated>, best: seq<Rated>)
    requires IsTopK(passing, q.topK, best) && forall r :: r in passing <==> Passes(q, tokens, hits, dot, chunks, r)
    ensures AreBest(q, tokens, hits, dot, chunks, best)
  {
    forall r | Passes(q, tokens, hits, dot, chunks, r) && r !in best ensures |best| == q.topK {
      AllWouldBeIn(passing, best, r);
    }
  }

  lemma {:induction false} AllWouldBeIn(passing: set<Rated>, best: seq<Rated>, r: Rated)
    requires r in passing && r !in best && (forall i :: 0 <= i < |best| ==> best[i] in passing)
    requires forall i, j :: 0 <= i < j < |best| ==> Ahead(best[i], best[j])
    ensures |best| < |passing|
  {
    if best != [] {
      var last := best[|best| - 1];
      assert best == best[..|best| - 1] + [last];
      forall i | 0 <= i < |best| - 1 ensures best[i] != last {
        assert Ahead(best[i], last);
        AheadOneWay(best[i], last);
      }
      AllWouldBeIn(passing - {last}, best[..|best| - 1], r);
    }
  }
}

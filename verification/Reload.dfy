/**
 * Searching what was loaded from an index (crates/termlm-indexer/src/retrieve.rs, crates/termlm-indexer/src/store.rs):
 * when the retriever over loaded files answers as the one built from the chunks.
 */
module Reload {
  import opened Wrappers
  import opened Ordering
  import opened Text
  import opened Binary
  import opened Chunks
  import EntriesFile
  import opened ChunksReader
  import opened Lexical
  import opened Retrieve
  import opened LexiconFile
  import opened Layout

  // ---------- an answer exists ----------

  /** The passing rows among the first `k` ids, in row order. */
  lemma {:induction false} RowsInOrder(q: Query, tokens: seq<string>, hits: seq<Hit>, dot: nat -> real,
      chunks: seq<Chunk>, ids: seq<nat>, k: nat)
    returns (rated: seq<Rated>)
    requires k <= |ids| && forall i, j :: 0 <= i < j < |ids| ==> ids[i] < ids[j]
    ensures InRowOrder(rated, Passing(q, tokens, hits, dot, chunks, IdsUpTo(ids, k)))
  {
    if k == 0 {
      rated := [];
    } else {
      rated := RowsInOrder(q, tokens, hits, dot, chunks, ids, k - 1);
      PassingNext(q, tokens, hits, dot, chunks, ids, k - 1, rated);
      var id := ids[k - 1];
      if id < |chunks| && Fused(q, tokens, hits, dot, id, chunks[id]) >= q.minScore {
        rated := rated + [Rated(id, chunks[id], Fused(q, tokens, hits, dot, id, chunks[id]))];
      }
    }
  }

  lemma {:induction false} BestExists(q: Query, tokens: seq<string>, hits: seq<Hit>, dot: nat -> real,
      chunks: seq<Chunk>, rows: set<nat>)
    returns (out: seq<Found>)
    ensures IsBest(Passing(q, tokens, hits, dot, chunks, rows), q.topK, out)
  {
    var ids := Ascending(rows);
    var rated := RowsInOrder(q, tokens, hits, dot, chunks, ids, |ids|);
    assert ids[..|ids|] == ids && IdsUpTo(ids, |ids|) == rows;
    out := BestOfOrdered(rated, Passing(q, tokens, hits, dot, chunks, rows), q.topK);
  }

  lemma {:induction false} BestOfOrdered(rated: seq<Rated>, passing: set<Rated>, k: nat) returns (out: seq<Found>)
    requires InRowOrder(rated, passing)
    ensures IsBest(passing, k, out)
  {
    var sorted := SortBy(RatedOrder(), rated);
    SortedPrefixIsTopK(rated, passing, k);
    out := Mapped(ToFound(), if |sorted| > k then sorted[..k] else sorted);
  }

  // ---------- two indexes over the same rows ----------

  /** Over either index the retriever gives the same answer, whatever is asked and whatever the vectors say. */
  ghost predicate AnswersAgree(alnum: Alnum, logs: Logs, docs: seq<Doc>, loaded: seq<Doc>, chunks: seq<Chunk>,
      others: seq<Chunk>) {
    forall q, dot, out :: AgreeOn(alnum, logs, docs, loaded, chunks, others, q, dot, out)
  }

  ghost predicate AgreeOn(alnum: Alnum, logs: Logs, docs: seq<Doc>, loaded: seq<Doc>, chunks: seq<Chunk>,
      others: seq<Chunk>, q: Query, dot: nat -> real, out: seq<Found>) {
    Answers(alnum, logs, docs, chunks, q, dot, out) <==> Answers(alnum, logs, loaded, others, q, dot, out)
  }

  ghost predicate Answers(alnum: Alnum, logs: Logs, docs: seq<Doc>, chunks: seq<Chunk>, q: Query, dot: nat -> real,
      out: seq<Found>) {
    IsAnswer(logs, docs, q, Tokenize(alnum, q.text), Tokenize(alnum, Lower(q.text)), dot, chunks, out)
  }

  lemma {:induction false} SearchesGiveAnswers(alnum: Alnum, logs: Logs, docs: seq<Doc>, loaded: seq<Doc>,
      chunks: seq<Chunk>)
    requires SearchesAgree(alnum, logs, docs, loaded)
    ensures AnswersAgree(alnum, logs, docs, loaded, chunks, chunks)
  {
    forall q: Query, dot: nat -> real, out: seq<Found>
      ensures AgreeOn(alnum, logs, docs, loaded, chunks, chunks, q, dot, out)
    {
      SameHits(alnum, logs, docs, loaded, q);
    }
  }

  lemma {:induction false} SameHits(alnum: Alnum, logs: Logs, docs: seq<Doc>, loaded: seq<Doc>, q: Query)
    requires SearchesAgree(alnum, logs, docs, loaded)
    ensures forall hits ::
      HitsFor(logs, docs, q, Tokenize(alnum, q.text), hits) <==> HitsFor(logs, loaded, q, Tokenize(alnum, q.text), hits)
  {
  }

  /** Nothing but the lexical score counts, it must reach the given one, and one row is wanted. */
  function ScoreQuery(text: string, least: real): Query {
    Query(text, 1, least, false, true, 0, 0.0, 0.0, 0.0, false)
  }

  /** With the score of a row as the minimum, there is an answer. */
  lemma {:induction false} RowIsFound(alnum: Alnum, logs: Logs, docs: seq<Doc>, chunks: seq<Chunk>, text: string,
      terms: seq<string>, id: nat, least: real, dot: nat -> real)
    returns (out: seq<Found>)
    requires terms == Tokenize(alnum, text) && id < |chunks| && SharesToken(docs, terms, id)
    requires least == Score(logs, docs, terms, id)
    ensures Answers(alnum, logs, docs, chunks, ScoreQuery(text, least), dot, out) && |out| == 1
  {
    var q, tokens := ScoreQuery(text, least), Tokenize(alnum, Lower(text));
    var hits := RankingExists(logs, docs, terms);
    LexicalScoreIsRecount(logs, docs, terms, hits, id);
    assert Capped(q, hits) == hits && id in Candidates(q, hits, |chunks|);
    var passing := Passing(q, tokens, hits, dot, chunks, Candidates(q, hits, |chunks|));
    assert Rated(id, chunks[id], Fused(q, tokens, hits, dot, id, chunks[id])) in passing;
    out := BestExists(q, tokens, hits, dot, chunks, Candidates(q, hits, |chunks|));
  }

  ghost predicate AllBelow(logs: Logs, docs: seq<Doc>, terms: seq<string>, least: real) {
    forall id :: SharesToken(docs, terms, id) ==> Score(logs, docs, terms, id) < least
  }

  /** When every row with a token scores less than the minimum, there is none. */
  lemma {:induction false} NoRowIsFound(alnum: Alnum, logs: Logs, docs: seq<Doc>, chunks: seq<Chunk>, text: string,
      least: real, dot: nat -> real, out: seq<Found>)
    requires AllBelow(logs, docs, Tokenize(alnum, text), least)
    requires Answers(alnum, logs, docs, chunks, ScoreQuery(text, least), dot, out)
    ensures out == []
  {
    var q, terms, tokens := ScoreQuery(text, least), Tokenize(alnum, text), Tokenize(alnum, Lower(text));
    var hits :| HitsFor(logs, docs, q, terms, hits) &&
      IsBest(Passing(q, tokens, Capped(q, hits), dot, chunks, Candidates(q, Capped(q, hits), |chunks|)), q.topK, out);
    assert Capped(q, hits) == hits;
    forall id | id in HitIds(hits) && id < |chunks| ensures Fused(q, tokens, hits, dot, id, chunks[id]) < least {
      LexicalScoreIsRecount(logs, docs, terms, hits, id);
    }
    assert Passing(q, tokens, hits, dot, chunks, Candidates(q, hits, |chunks|)) == {};
  }

  /** An index that forgot a document scores every row less for a single term. */
  lemma {:induction false} ForgettingLowers(logs: Logs, docs: seq<Doc>, loaded: seq<Doc>, t: string, id: nat, gone: nat)
    requires AreLogs(logs) && Posted(loaded, t) == Posted(docs, t)
    requires Ids(loaded) <= Ids(docs) && gone in Ids(docs) && gone !in Ids(loaded) && id in Posted(docs, t)
    ensures SharesToken(docs, [t], id)
    ensures AllBelow(logs, loaded, [t], Score(logs, docs, [t], id))
  {
    ProperSubset(Ids(loaded), Ids(docs), gone);
    assert t in [t];
    ScoreOfOneTerm(logs, docs, t, id);
    ScoreOfOneTerm(logs, loaded, t, id);
    MoreDocumentsMoreScore(logs, |Ids(loaded)|, |Ids(docs)|, |Posted(docs, t)|);
    forall row | SharesToken(loaded, [t], row) ensures Score(logs, loaded, [t], row) < Score(logs, docs, [t], id) {
      ScoreOfOneTerm(logs, loaded, t, row);
    }
  }

  /** So with the right minimum the one index finds a row and the other nothing. */
  lemma {:induction false} LowerScoresShow(alnum: Alnum, logs: Logs, docs: seq<Doc>, loaded: seq<Doc>,
      chunks: seq<Chunk>, text: string, terms: seq<string>, id: nat, least: real)
    requires terms == Tokenize(alnum, text) && id < |chunks| && SharesToken(docs, terms, id)
    requires least == Score(logs, docs, terms, id) && AllBelow(logs, loaded, terms, least)
    ensures !AnswersAgree(alnum, logs, docs, loaded, chunks, chunks)
  {
    var dot := (row: nat) => 0.0;
    var q := ScoreQuery(text, least);
    var out := RowIsFound(alnum, logs, docs, chunks, text, terms, id, least, dot);
    if Answers(alnum, logs, loaded, chunks, q, dot, out) {
      NoRowIsFound(alnum, logs, loaded, chunks, text, least, dot, out);
    }
    AnswerTells(alnum, logs, docs, loaded, chunks, q, dot, out);
  }

  lemma {:induction false} AnswerTells(alnum: Alnum, logs: Logs, docs: seq<Doc>, loaded: seq<Doc>, chunks: seq<Chunk>,
      q: Query, dot: nat -> real, out: seq<Found>)
    requires Answers(alnum, logs, docs, chunks, q, dot, out) && !Answers(alnum, logs, loaded, chunks, q, dot, out)
    ensures !AnswersAgree(alnum, logs, docs, loaded, chunks, chunks)
  {
    assert !AgreeOn(alnum, logs, docs, loaded, chunks, chunks, q, dot, out);
  }

  // ---------- the index loaded from its files ----------

  /** All rows have a token, or none has. */
  ghost predicate AllOrNone(alnum: Alnum, chunks: seq<Chunk>) {
    (forall c :: c in chunks ==> HasSomeWord(alnum, c)) || (forall c :: c in chunks ==> !HasSomeWord(alnum, c))
  }

  /**
   * An index rebuilt from the postings of the chunks gives the same answers exactly when every chunk has a token, or
   * none has.
   */
  lemma {:induction false} RebuiltAnswersAgree(alnum: Alnum, logs: Logs, chunks: seq<Chunk>,
      postings: map<string, set<nat>>)
    requires AreLogs(logs) && IsPostings(alnum, chunks, postings)
    ensures AnswersAgree(alnum, logs, ChunkDocs(alnum, chunks), DocsOf(postings), chunks, chunks) <==>
      AllOrNone(alnum, chunks)
  {
    var docs := ChunkDocs(alnum, chunks);
    ChunksAreInserted(alnum, chunks);
    WordsAreTokens(alnum, chunks);
    if AllOrNone(alnum, chunks) {
      RebuiltSearchesAgree(alnum, logs, docs, postings);
      SearchesGiveAnswers(alnum, logs, docs, DocsOf(postings), chunks);
    } else {
      var id :| id in Ids(docs) && HasToken(docs, id);
      var gone :| gone in Ids(docs) && !HasToken(docs, gone);
      IdsOfChunkDocs(alnum, chunks);
      DocumentIsForgotten(alnum, logs, docs, postings, chunks, id, gone);
    }
  }

  lemma {:induction false} DocumentIsForgotten(alnum: Alnum, logs: Logs, docs: seq<Doc>,
      postings: map<string, set<nat>>, chunks: seq<Chunk>, id: nat, gone: nat)
    requires AreLogs(logs) && AreInserted(alnum, docs) && forall t :: PostingOf(postings, t) == Posted(docs, t)
    requires HasToken(docs, id) && id < |chunks| && gone in Ids(docs) && !HasToken(docs, gone)
    ensures !AnswersAgree(alnum, logs, docs, DocsOf(postings), chunks, chunks)
  {
    var t :| id in Posted(docs, t);
    DocsOfPostings(postings);
    RebuiltIds(docs, postings);
    var text := PostedTokenIsAQuery(alnum, docs, t, id);
    ForgettingLowers(logs, docs, DocsOf(postings), t, id, gone);
    LowerScoresShow(alnum, logs, docs, DocsOf(postings), chunks, text, [t], id, Score(logs, docs, [t], id));
  }

  /**
   * The retriever with the loaded index answers as the one in memory exactly when every chunk has a token, or none has.
   */
  lemma {:induction false} LoadedAnswersAgree(alnum: Alnum, logs: Logs, chunks: seq<Chunk>, files: Files)
    requires AreLogs(logs) && !alnum(' ') && FilesOf(RowsOf(Uses(alnum, chunks))) == Ok(files) &&
      |Words(Uses(alnum, chunks))| < U32_LIMIT
    ensures PostingsOf(files.lexicon, files.postings).Ok?
    ensures AnswersAgree(alnum, logs, ChunkDocs(alnum, chunks), DocsOf(PostingsOf(files.lexicon, files.postings).value),
      chunks, chunks)
            <==> AllOrNone(alnum, chunks)
  {
    FilesHoldThePostings(alnum, chunks, files);
    RebuiltAnswersAgree(alnum, logs, chunks, PostingsOf(files.lexicon, files.postings).value);
  }

  /**
   * A whole index written and loaded, when every chunk survives: the retriever over the loaded chunks and the loaded
   * index answers as the one built in memory exactly when every chunk has a token, or none has.
   */
  lemma {:induction false} ReloadedRetrieverAgrees(host: Host, alnum: Alnum, logs: Logs,
      entries: seq<EntriesFile.Entry>, chunks: seq<Chunk>,
                                                   tombstones: seq<Chunk>, layout: LayoutFiles, files: Files)
    requires LayoutOf(entries, chunks, tombstones) == Ok(layout) && SizesFit(entries, chunks, tombstones)
    requires forall c :: c in chunks ==> host.valid(c.extractedAt.secs) && Survives(entries, c)
    requires AreLogs(logs) && !alnum(' ') && FilesOf(RowsOf(Uses(alnum, chunks))) == Ok(files) &&
      |Words(Uses(alnum, chunks))| < U32_LIMIT
    ensures ChunksIn(host, layout).Ok? && PostingsOf(files.lexicon, files.postings).Ok?
    ensures AnswersAgree(alnum, logs, ChunkDocs(alnum, chunks), DocsOf(PostingsOf(files.lexicon, files.postings).value),
                         chunks, ChunksIn(host, layout).value)
            <==> AllOrNone(alnum, chunks)
  {
    LayoutSurvives(host, entries, chunks, tombstones, layout);
    LoadedAnswersAgree(alnum, logs, chunks, files);
  }
}

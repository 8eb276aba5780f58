/** The inverted index over the chunks (crates/termlm-indexer/src/lexical.rs). */
module Lexical {
  import opened Wrappers
  import opened Ordering
  import opened Text
  import opened Runs

  // ---------- tokens ----------

  /** `char::is_alphanumeric`. */
  type Alnum = char -> bool

  predicate InToken(alnum: Alnum, c: char) { alnum(c) || c == '-' || c == '_' }

  /** The length of the token the text starts with. */
  function TokenLength(alnum: Alnum, s: string): (n: nat)
    ensures n <= |s|
    ensures s != "" && InToken(alnum, s[0]) ==> n > 0
  {
    if s == "" || !InToken(alnum, s[0]) then 0 else 1 + TokenLength(alnum, s[1..])
  }

  function Tokenize(alnum: Alnum, s: string): seq<string>
    decreases |s|
  {
    if s == "" then []
    else if !InToken(alnum, s[0]) then Tokenize(alnum, s[1..])
    else [Lower(s[..TokenLength(alnum, s)])] + Tokenize(alnum, s[TokenLength(alnum, s)..])
  }

  lemma {:induction false} TokenLengthBefore(alnum: Alnum, a: string, b: string)
    requires b != "" && !InToken(alnum, b[0])
    ensures TokenLength(alnum, a + b) == TokenLength(alnum, a)
  {
    if a == "" {
      assert a + b == b;
    } else {
      assert (a + b)[1..] == a[1..] + b;
      TokenLengthBefore(alnum, a[1..], b);
    }
  }

  /** Texts joined by a separator have the tokens of each. */
  lemma {:induction false} TokenizeJoined(alnum: Alnum, a: string, b: string)
    requires b != "" && !InToken(alnum, b[0])
    ensures Tokenize(alnum, a + b) == Tokenize(alnum, a) + Tokenize(alnum, b)
    decreases |a|
  {
    if a == "" {
      assert a + b == b;
    } else if !InToken(alnum, a[0]) {
      assert (a + b)[1..] == a[1..] + b;
      TokenizeJoined(alnum, a[1..], b);
    } else {
      var n := TokenLength(alnum, a);
      TokenLengthBefore(alnum, a, b);
      assert (a + b)[..n] == a[..n] && (a + b)[n..] == a[n..] + b;
      TokenizeJoined(alnum, a[n..], b);
    }
  }

  lemma {:induction false} TokensAreNotEmpty(alnum: Alnum, s: string)
    ensures "" !in Tokenize(alnum, s)
    decreases |s|
  {
    if s != "" {
      if !InToken(alnum, s[0]) {
        TokensAreNotEmpty(alnum, s[1..]);
      } else {
        TokensAreNotEmpty(alnum, s[TokenLength(alnum, s)..]);
      }
    }
  }

  // ---------- what the tokens are ----------

  /** Which characters of the text are letters, digits, dashes or underscores. */
  function Marks(alnum: Alnum, s: string): (v: seq<bool>)
    ensures |v| == |s| && forall i :: 0 <= i < |v| ==> v[i] == (alnum(s[i]) || s[i] == '-' || s[i] == '_')
  {
    seq(|s|, i requires 0 <= i < |s| => InToken(alnum, s[i]))
  }

  /** The token is the stretch in lower case. */
  predicate Spells(s: string, r: Span, token: string) {
    && r.begin <= r.end <= |s| && |token| == r.end - r.begin
    && (forall i :: 0 <= i < |token| ==> token[i] == LowerChar(s[r.begin + i]))
  }

  /** The tokens are the runs of marked characters in lower case. */
  ghost predicate AreTokens(alnum: Alnum, s: string, runs: seq<Span>, tokens: seq<string>) {
    && AreRuns(Marks(alnum, s), runs)
    && |tokens| == |runs| && (forall k :: 0 <= k < |runs| ==> Spells(s, runs[k], tokens[k]))
  }

  lemma {:induction false} TokenIsRun(alnum: Alnum, s: string)
    requires s != "" && InToken(alnum, s[0])
    ensures IsRun(Marks(alnum, s), Span(0, TokenLength(alnum, s)))
  {
    var v, n := Marks(alnum, s), TokenLength(alnum, s);
    TokenLengthMeans(alnum, s);
    forall i | 0 <= i < n ensures Marked(v, i) { assert InToken(alnum, s[i]); }
  }

  lemma {:induction false} TokenLengthMeans(alnum: Alnum, s: string)
    ensures var n := TokenLength(alnum, s);
      (forall i :: 0 <= i < n ==> InToken(alnum, s[i])) && (n < |s| ==> !InToken(alnum, s[n]))
  {
    if s != "" && InToken(alnum, s[0]) {
      TokenLengthMeans(alnum, s[1..]);
      assert forall i :: 1 <= i < |s| ==> s[i] == s[1..][i - 1];
    }
  }

  lemma {:induction false} SpellsLater(s: string, n: nat, runs: seq<Span>, tokens: seq<string>)
    requires n <= |s| && |tokens| == |runs| && (forall k :: 0 <= k < |runs| ==> Spells(s[n..], runs[k], tokens[k]))
    ensures forall k :: 0 <= k < |runs| ==> Spells(s, ShiftAll(runs, n)[k], tokens[k])
  {
    forall k | 0 <= k < |runs| ensures Spells(s, Shift(runs[k], n), tokens[k]) {
      assert Spells(s[n..], runs[k], tokens[k]);
      forall i | 0 <= i < |tokens[k]| ensures tokens[k][i] == LowerChar(s[runs[k].begin + n + i]) {
        assert s[n..][runs[k].begin + i] == s[runs[k].begin + n + i];
      }
    }
  }

  /** The tokens of a text are its runs in lower case, every one of them and in order. */
  lemma {:induction false} TokenizeMeans(alnum: Alnum, s: string) returns (runs: seq<Span>)
    ensures AreTokens(alnum, s, runs, Tokenize(alnum, s))
    decreases |s|
  {
    var v := Marks(alnum, s);
    if s == "" {
      runs := [];
    } else {
      var n := if InToken(alnum, s[0]) then TokenLength(alnum, s) else 1;
      var later := TokenizeMeans(alnum, s[n..]);
      assert Marks(alnum, s[n..]) == v[n..];
      SpellsLater(s, n, later, Tokenize(alnum, s[n..]));
      runs := ShiftAll(later, n);
      if InToken(alnum, s[0]) {
        TokenIsRun(alnum, s);
        RunThenRuns(v, n, later);
        assert Spells(s, Span(0, n), Lower(s[..n]));
        runs := [Span(0, n)] + runs;
      } else {
        RunsPastUnmarked(v, later);
      }
    }
  }

  /** The classification of characters does not tell letters of different case apart. */
  ghost predicate IgnoresCase(alnum: Alnum) {
    forall c :: alnum(c) == alnum(LowerChar(c))
  }

  /** So texts that differ in case only have the same tokens. */
  lemma {:induction false} TokensIgnoreCase(alnum: Alnum, s: string, t: string)
    requires IgnoresCase(alnum) && Lower(s) == Lower(t)
    ensures Tokenize(alnum, s) == Tokenize(alnum, t)
  {
    var a := TokenizeMeans(alnum, s);
    var b := TokenizeMeans(alnum, t);
    forall i | 0 <= i < |s| ensures LowerChar(s[i]) == LowerChar(t[i]) {
      assert Lower(s)[i] == LowerChar(s[i]) && Lower(t)[i] == LowerChar(t[i]);
    }
    SameMarks(alnum, s, t);
    RunsAreUnique(Marks(alnum, s), a, b);
    forall k | 0 <= k < |a| ensures Tokenize(alnum, s)[k] == Tokenize(alnum, t)[k] {
      SameSpelling(s, t, a[k], Tokenize(alnum, s)[k], Tokenize(alnum, t)[k]);
    }
  }

  lemma {:induction false} SameMarks(alnum: Alnum, s: string, t: string)
    requires IgnoresCase(alnum) && |s| == |t| && forall i :: 0 <= i < |s| ==> LowerChar(s[i]) == LowerChar(t[i])
    ensures Marks(alnum, s) == Marks(alnum, t)
  {
    forall i | 0 <= i < |s| ensures InToken(alnum, s[i]) == InToken(alnum, t[i]) {
      assert alnum(s[i]) == alnum(LowerChar(s[i])) && alnum(t[i]) == alnum(LowerChar(t[i]));
    }
  }

  lemma {:induction false} SameSpelling(s: string, t: string, r: Span, a: string, b: string)
    requires |s| == |t| && forall i :: 0 <= i < |s| ==> LowerChar(s[i]) == LowerChar(t[i])
    requires Spells(s, r, a) && Spells(t, r, b)
    ensures a == b
  {
    assert forall i :: 0 <= i < |a| ==> a[i] == b[i];
  }

  // ---------- what the index stands for ----------

  /** One `insert`: a document id and a text. */
  datatype Doc = Doc(id: nat, tokens: seq<string>)

  /** The documents in which a token was inserted. */
  function Posted(docs: seq<Doc>, token: string): set<nat> {
    set k | 0 <= k < |docs| && token in docs[k].tokens :: docs[k].id
  }

  function Ids(docs: seq<Doc>): set<nat> {
    set k | 0 <= k < |docs| :: docs[k].id
  }

  /** The posting list of a token, empty when it has none. */
  function PostingOf(postings: map<string, set<nat>>, token: string): set<nat> {
    if token in postings then postings[token] else {}
  }

  ghost predicate Indexes(postings: map<string, set<nat>>, docIds: set<nat>, docs: seq<Doc>) {
    docIds == Ids(docs) && forall t :: PostingOf(postings, t) == Posted(docs, t)
  }

  // ---------- scoring by a recount ----------

  /** `ln` and `ln_1p`, of which nothing is assumed. */
  datatype Logs = Logs(ln: real -> real, ln1p: real -> real)

  function MaxNat(a: nat, b: nat): nat { if a < b then b else a }

  function Idf(logs: Logs, docCount: nat, df: nat): real {
    var n, d := MaxNat(docCount, 1) as real, MaxNat(df, 1) as real;
    var l := logs.ln((n - d + 0.5) / (d + 0.5) + 1.0);
    if l < 0.0 then 0.0 else l
  }

  function Weight(logs: Logs, tf: nat): real { 1.0 + logs.ln1p(tf as real) }

  function Count(s: seq<string>, t: string): nat {
    if s == [] then 0 else Count(s[..|s| - 1], t) + if s[|s| - 1] == t then 1 else 0
  }

  /** The gain of a term that `df` of the documents hold, `tf` times in the query. */
  function TermGain(logs: Logs, docCount: nat, df: nat, tf: nat): real {
    Idf(logs, docCount, df) * Weight(logs, tf)
  }

  /** What a query term adds to a document that holds it. */
  function Gain(logs: Logs, docs: seq<Doc>, query: seq<string>, term: string): real {
    TermGain(logs, |Ids(docs)|, |Posted(docs, term)|, Count(query, term))
  }

  /** The gains of the terms a document holds. */
  function Gains(logs: Logs, docs: seq<Doc>, query: seq<string>, terms: seq<string>, id: nat): real {
    if terms == [] then 0.0 else
      var t := terms[|terms| - 1];
      Gains(logs, docs, query, terms[..|terms| - 1], id) + if id in Posted(docs, t) then Gain(logs, docs, query, t)
        else 0.0
  }

  /** How many of the terms a document holds. */
  function Matched(docs: seq<Doc>, terms: seq<string>, id: nat): (n: nat)
    ensures n <= |terms|
  {
    if terms == [] then 0 else
      Matched(docs, terms[..|terms| - 1], id) + if id in Posted(docs, terms[|terms| - 1]) then 1 else 0
  }

  function Terms(query: seq<string>): seq<string> {
    SortedKeys(set t | t in query)
  }

  /** The score a document deserves: its gains, and a fifth of the share of the terms it covers. */
  function Score(logs: Logs, docs: seq<Doc>, query: seq<string>, id: nat): real {
    var terms := Terms(query);
    Gains(logs, docs, query, terms, id) + Matched(docs, terms, id) as real / MaxNat(|terms|, 1) as real * 0.2
  }

  ghost predicate SharesToken(docs: seq<Doc>, query: seq<string>, id: nat) {
    exists t :: t in query && id in Posted(docs, t)
  }

  // ---------- ranking ----------

  datatype Hit = Hit(id: nat, score: real)

  /** Higher scores first, then smaller ids. */
  function RankOrder(): (Hit, Hit) -> bool {
    (a: Hit, b: Hit) => a.score > b.score || (a.score == b.score && a.id <= b.id)
  }

  lemma {:induction false} RankIsTotal()
    ensures TotalPreorder(RankOrder())
  {
  }

  // ---------- the index ----------

  class LexicalIndex {
    var postings: map<string, set<nat>>
    var docIds: set<nat>
    ghost var docs: seq<Doc>

    ghost predicate Valid()
      reads this
    {
      Indexes(postings, docIds, docs)
    }

    constructor ()
      ensures Valid() && docs == []
    {
      postings, docIds, docs := map[], {}, [];
    }

    /** An index rebuilt from its posting lists alone: the ids it knows are those that occur in one. */
    constructor FromPostings(postings: map<string, set<nat>>)
      ensures Valid() && this.postings == postings && docs == DocsOf(postings)
    {
      this.postings, docIds, docs := postings, {}, DocsOf(postings);
      new;
      var rest := postings.Keys;
      while rest != {}
        invariant this.postings == postings && docs == DocsOf(postings) && rest <= postings.Keys
        invariant docIds == set t, k | t in postings.Keys - rest && k in postings[t] :: k
        decreases |rest|
      {
        var t :| t in rest;
        docIds := docIds + postings[t];
        rest := rest - {t};
      }
      DocsOfPostings(postings);
    }

    method Insert(alnum: Alnum, id: nat, text: string)
      requires Valid()
      modifies this
      ensures Valid() && docs == old(docs) + [Doc(id, Tokenize(alnum, text))]
    {
      var tokens := Tokenize(alnum, text);
      docIds := docIds + {id};
      docs := docs + [Doc(id, [])];
      assert Valid() by { NothingPosted(old(postings), old(docIds), old(docs), id); }
      for k := 0 to |tokens|
        invariant docs == old(docs) + [Doc(id, tokens[..k])]
        invariant Valid()
      {
        var t := tokens[k];
        ghost var before := postings;
        postings := postings[t := PostingOf(postings, t) + {id}];
        assert tokens[..k + 1] == tokens[..k] + [t];
        TokenPosted(before, docIds, old(docs), id, tokens[..k], t);
        docs := old(docs) + [Doc(id, tokens[..k + 1])];
      }
      assert tokens[..|tokens|] == tokens;
    }

    /**
     * Exactly the documents that share a token with the query, each with the score a recount gives it,
     * by score and then id.
     */
    method Search(alnum: Alnum, logs: Logs, text: string) returns (out: seq<Hit>)
      requires Valid()
      ensures IsRanking(logs, docs, Tokenize(alnum, text), out)
    {
      var query := Tokenize(alnum, text);
      var queryTf := CountTerms(query);
      if queryTf == map[] {
        assert forall t :: t !in query;
        NothingAsked(logs, docs, query);
        return [];
      }
      assert queryTf.Keys == set t | t in query;
      var terms := SortedKeys(queryTf.Keys);
      var scores, matched := ScoreTerms(logs, query, queryTf, terms);
      out := RankScores(logs, docs, query, |terms|, scores, matched);
    }

    /** The outer loop: the query's distinct terms in order. */
    method ScoreTerms(logs: Logs, query: seq<string>, queryTf: map<string, nat>, terms: seq<string>)
      returns (scores: map<nat, real>, matched: map<nat, nat>)
      requires Valid() && forall k :: 0 <= k < |terms| ==>
        terms[k] in queryTf && queryTf[terms[k]] == Count(query, terms[k])
      ensures Scored(logs, docs, query, terms, scores, matched)
    {
      var docCount := |docIds|;
      scores, matched := map[], map[];
      for i := 0 to |terms|
        invariant Scored(logs, docs, query, terms[..i], scores, matched)
      {
        scores, matched := AddTerm(logs, query, queryTf, terms, i, docCount, scores, matched);
      }
      assert terms[..|terms|] == terms;
    }

    /** The body of the outer loop: the postings of one query term. */
    method AddTerm(logs: Logs, query: seq<string>, queryTf: map<string, nat>, terms: seq<string>, i: nat, docCount: nat,
                   scores: map<nat, real>, matched: map<nat, nat>)
                     returns (scores': map<nat, real>, matched': map<nat, nat>)
      requires Valid() && i < |terms| && docCount == |docIds|
      requires terms[i] in queryTf && queryTf[terms[i]] == Count(query, terms[i])
      requires Scored(logs, docs, query, terms[..i], scores, matched)
      ensures Scored(logs, docs, query, terms[..i + 1], scores', matched')
    {
      var t := terms[i];
      assert PostingOf(postings, t) == Posted(docs, t);
      if t in postings {
        var ids := postings[t];
        var gain := TermGain(logs, docCount, |ids|, queryTf[t]);
        assert ids == Posted(docs, t) && docIds == Ids(docs);
        assert gain == Gain(logs, docs, query, t);
        scores', matched' := AddGain(scores, matched, ids, gain);
        ScoredNext(logs, docs, query, terms, i, ids, gain, scores, matched, scores', matched');
      } else {
        scores', matched' := scores, matched;
        ScoredNext(logs, docs, query, terms, i, {}, 0.0, scores, matched, scores', matched');
      }
    }
  }

  /** Coverage is added to every score, and the scores are ranked. */
  method RankScores(logs: Logs, ghost docs: seq<Doc>, ghost query: seq<string>, terms: nat, scores: map<nat, real>,
      matched: map<nat, nat>)
    returns (out: seq<Hit>)
    requires terms == |Terms(query)| && Scored(logs, docs, query, Terms(query), scores, matched)
    ensures IsRanking(logs, docs, query, out)
  {
    if scores == map[] {
      NothingShared(logs, docs, query, scores, matched);
      return [];
    }
    CountsAreBounded(logs, docs, query, scores, matched);
    var covered := AddCoverage(scores, matched, terms);
    out := Ranked(covered);
    RankingIsTheScan(logs, docs, query, scores, matched, covered, out);
  }

  lemma {:induction false} NothingAsked(logs: Logs, docs: seq<Doc>, query: seq<string>)
    requires forall t :: t !in query
    ensures IsRanking(logs, docs, query, [])
  {
  }

  lemma {:induction false} CountsAreBounded(logs: Logs, docs: seq<Doc>, query: seq<string>, scores: map<nat, real>,
      matched: map<nat, nat>)
    requires Scored(logs, docs, query, Terms(query), scores, matched)
    ensures forall d :: d in matched ==> matched[d] <= |Terms(query)|
  {
  }

  lemma {:induction false} NothingShared(logs: Logs, docs: seq<Doc>, query: seq<string>, scores: map<nat, real>,
      matched: map<nat, nat>)
    requires Scored(logs, docs, query, Terms(query), scores, matched) && scores == map[]
    ensures IsRanking(logs, docs, query, [])
  {
    forall id ensures !SharesToken(docs, query, id) {
      SharedIsMatched(docs, query, id);
      assert id !in scores;
    }
  }

  lemma {:induction false} RankingIsTheScan(logs: Logs, docs: seq<Doc>, query: seq<string>, scores: map<nat, real>,
      matched: map<nat, nat>,
                                            covered: map<nat, real>, out: seq<Hit>)
    requires Scored(logs, docs, query, Terms(query), scores, matched) && covered.Keys == scores.Keys
    requires forall d :: d in scores ==>
      covered[d] == scores[d] + matched[d] as real / MaxNat(|Terms(query)|, 1) as real * 0.2
    requires Ranks(covered, out)
    ensures IsRanking(logs, docs, query, out)
  {
    forall id ensures SharesToken(docs, query, id) <==> id in covered { SharedIsMatched(docs, query, id); }
    forall d | d in covered ensures covered[d] == Score(logs, docs, query, d) {
      assert scores[d] == Gains(logs, docs, query, Terms(query), d) && matched[d] == Matched(docs, Terms(query), d);
    }
  }

  /** The entries of a table, each once, in rank order. */
  ghost predicate Ranks(scores: map<nat, real>, out: seq<Hit>) {
    && (forall i, j :: 0 <= i < j < |out| ==> Before(out[i], out[j]))
    && (forall k :: 0 <= k < |out| ==> out[k].id in scores && out[k].score == scores[out[k].id])
    && (forall id :: id in scores ==> exists k :: 0 <= k < |out| && out[k].id == id)
  }

  lemma {:induction false} NothingPosted(postings: map<string, set<nat>>, docIds: set<nat>, docs: seq<Doc>, id: nat)
    requires Indexes(postings, docIds, docs)
    ensures Indexes(postings, docIds + {id}, docs + [Doc(id, [])])
  {
    var more := docs + [Doc(id, [])];
    PostedOneMore(docs, Doc(id, []));
  }

  /** A document more adds its id to the postings of each of its tokens. */
  lemma {:induction false} PostedOneMore(docs: seq<Doc>, d: Doc)
    ensures forall t :: Posted(docs + [d], t) == Posted(docs, t) + if t in d.tokens then {d.id} else {}
    ensures Ids(docs + [d]) == Ids(docs) + {d.id}
  {
    var more := docs + [d];
    assert more[|docs|] == d && forall k :: 0 <= k < |docs| ==> more[k] == docs[k];
    forall t ensures Posted(more, t) == Posted(docs, t) + if t in d.tokens then {d.id} else {} {
      forall x | x in Posted(docs, t) ensures x in Posted(more, t) {
        var k :| 0 <= k < |docs| && t in docs[k].tokens && docs[k].id == x;
        assert t in more[k].tokens && more[k].id == x;
      }
    }
    forall x | x in Ids(docs) ensures x in Ids(more) {
      var k :| 0 <= k < |docs| && docs[k].id == x;
      assert more[k].id == x;
    }
  }

  lemma {:induction false} TokenPosted(postings: map<string, set<nat>>, docIds: set<nat>, docs: seq<Doc>, id: nat,
      tokens: seq<string>, t: string)
    requires Indexes(postings, docIds, docs + [Doc(id, tokens)])
    ensures Indexes(postings[t := PostingOf(postings, t) + {id}], docIds, docs + [Doc(id, tokens + [t])])
  {
    var before, after := docs + [Doc(id, tokens)], docs + [Doc(id, tokens + [t])];
    PostedOneMore(docs, Doc(id, tokens));
    PostedOneMore(docs, Doc(id, tokens + [t]));
    forall u ensures Posted(after, u) == if u == t then Posted(before, t) + {id} else Posted(before, u) {
      assert u in tokens + [t] <==> u in tokens || u == t;
    }
  }

  // ---------- an index rebuilt from its postings ----------

  function PostedIds(postings: map<string, set<nat>>): set<nat> {
    set t, k | t in postings && k in postings[t] :: k
  }

  function TokensWith(postings: map<string, set<nat>>, id: nat): set<string> {
    set t | t in postings && id in postings[t]
  }

  /** One document an id, with every token it is posted under. */
  function DocsOf(postings: map<string, set<nat>>): seq<Doc> {
    Mapped((id: nat) => Doc(id, SortedKeys(TokensWith(postings, id))), Ascending(PostedIds(postings)))
  }

  lemma {:induction false} DocsOfPostings(postings: map<string, set<nat>>)
    ensures Ids(DocsOf(postings)) == PostedIds(postings)
    ensures forall t :: Posted(DocsOf(postings), t) == PostingOf(postings, t)
  {
    var docs, ids := DocsOf(postings), Ascending(PostedIds(postings));
    assert forall k :: 0 <= k < |docs| ==> docs[k] == Doc(ids[k], SortedKeys(TokensWith(postings, ids[k])));
    forall x ensures x in Ids(docs) <==> x in PostedIds(postings) {
      IdsAreTheirs(docs, ids, x);
    }
    forall t ensures Posted(docs, t) == PostingOf(postings, t) {
      forall x ensures x in Posted(docs, t) <==> x in PostingOf(postings, t) {
        PostedAsIn(postings, docs, ids, t, x);
      }
    }
  }

  lemma {:induction false} IdsAreTheirs(docs: seq<Doc>, ids: seq<nat>, x: nat)
    requires |docs| == |ids| && forall k :: 0 <= k < |docs| ==> docs[k].id == ids[k]
    ensures x in Ids(docs) <==> x in ids
  {
    if x in ids {
      var k :| 0 <= k < |ids| && ids[k] == x;
      assert docs[k].id == x;
    }
  }

  lemma {:induction false} PostedAsIn(postings: map<string, set<nat>>, docs: seq<Doc>, ids: seq<nat>, t: string, x: nat)
    requires |docs| == |ids| && ids == Ascending(PostedIds(postings))
    requires forall k :: 0 <= k < |docs| ==> docs[k] == Doc(ids[k], SortedKeys(TokensWith(postings, ids[k])))
    ensures x in Posted(docs, t) <==> x in PostingOf(postings, t)
  {
    if x in PostingOf(postings, t) {
      assert x in PostedIds(postings) && x in ids;
      var k :| 0 <= k < |ids| && ids[k] == x;
      assert t in TokensWith(postings, x);
      assert t in docs[k].tokens && docs[k].id == x;
    }
    if x in Posted(docs, t) {
      var k :| 0 <= k < |docs| && t in docs[k].tokens && docs[k].id == x;
      assert t in TokensWith(postings, x);
    }
  }

  /** A document without a token is in no posting list. */
  ghost predicate HasToken(docs: seq<Doc>, id: nat) {
    exists t :: id in Posted(docs, t)
  }

  /** What is known of the logarithms: `ln` grows and is zero at one, `ln_1p` is not negative. */
  ghost predicate AreLogs(logs: Logs) {
    && (forall x, y :: 0.0 < x < y ==> logs.ln(x) < logs.ln(y))
    && logs.ln(1.0) == 0.0
    && (forall x :: 0.0 <= x ==> logs.ln1p(x) >= 0.0)
  }

  /** Documents that came in as texts. */
  ghost predicate AreInserted(alnum: Alnum, docs: seq<Doc>) {
    forall d :: d in docs ==> exists text :: d.tokens == Tokenize(alnum, text)
  }

  /** Searching either index gives the same hits, whatever is asked. */
  ghost predicate SearchesAgree(alnum: Alnum, logs: Logs, docs: seq<Doc>, loaded: seq<Doc>) {
    forall text, out :: IsRanking(logs, docs, Tokenize(alnum, text), out) <==>
      IsRanking(logs, loaded, Tokenize(alnum, text), out)
  }

  /**
   * An index rebuilt from the same posting lists answers as the original does exactly when every document has a token,
   * or none has: a document without one is forgotten, which changes the document count in every score.
   */
  lemma {:induction false} RebuiltSearchesAgree(alnum: Alnum, logs: Logs, docs: seq<Doc>,
      postings: map<string, set<nat>>)
    requires AreLogs(logs) && AreInserted(alnum, docs) && forall t :: PostingOf(postings, t) == Posted(docs, t)
    ensures SearchesAgree(alnum, logs, docs, DocsOf(postings)) <==>
            (forall id :: id in Ids(docs) ==> HasToken(docs, id)) ||
              (forall id :: id in Ids(docs) ==> !HasToken(docs, id))
  {
    DocsOfPostings(postings);
    RebuiltIds(docs, postings);
    SamePostingsAgree(alnum, logs, docs, DocsOf(postings));
  }

  lemma {:induction false} SamePostingsAgree(alnum: Alnum, logs: Logs, docs: seq<Doc>, loaded: seq<Doc>)
    requires AreLogs(logs) && AreInserted(alnum, docs) && forall t :: Posted(loaded, t) == Posted(docs, t)
    requires Ids(loaded) <= Ids(docs) && forall id :: id in Ids(loaded) <==> HasToken(docs, id)
    ensures SearchesAgree(alnum, logs, docs, loaded) <==>
            (forall id :: id in Ids(docs) ==> HasToken(docs, id)) ||
              (forall id :: id in Ids(docs) ==> !HasToken(docs, id))
  {
    if forall id :: id in Ids(docs) ==> HasToken(docs, id) {
      assert Ids(loaded) == Ids(docs);
      forall query, out ensures IsRanking(logs, docs, query, out) <==> IsRanking(logs, loaded, query, out) {
        SamePostingsSameRanking(logs, docs, loaded, query, out);
      }
    } else if forall id :: id in Ids(docs) ==> !HasToken(docs, id) {
      forall query, out ensures IsRanking(logs, docs, query, out) <==> IsRanking(logs, loaded, query, out) {
        NothingToFind(logs, docs, loaded, query, out);
      }
    } else {
      var id :| id in Ids(docs) && HasToken(docs, id);
      var t :| id in Posted(docs, t);
      var gone :| gone in Ids(docs) && !HasToken(docs, gone);
      ForgottenDocument(alnum, logs, docs, loaded, t, id, gone);
    }
  }

  /** A token of a text is all that some text says. */
  lemma {:induction false} TokenIsAQuery(alnum: Alnum, text: string, t: string) returns (query: string)
    requires t in Tokenize(alnum, text)
    ensures Tokenize(alnum, query) == [t]
    decreases |text|
  {
    if !InToken(alnum, text[0]) {
      query := TokenIsAQuery(alnum, text[1..], t);
    } else {
      var n := TokenLength(alnum, text);
      if t == Lower(text[..n]) {
        query := text[..n];
        WholeToken(alnum, text, n);
        assert query[..n] == query && query[n..] == "";
      } else {
        query := TokenIsAQuery(alnum, text[n..], t);
      }
    }
  }

  lemma {:induction false} WholeToken(alnum: Alnum, text: string, n: nat)
    requires n <= TokenLength(alnum, text)
    ensures TokenLength(alnum, text[..n]) == n && forall i :: 0 <= i < n ==> InToken(alnum, text[i])
  {
    if n > 0 {
      WholeToken(alnum, text[1..], n - 1);
      assert text[..n][1..] == text[1..][..n - 1];
      assert forall i :: 0 < i < n ==> text[i] == text[1..][i - 1];
    }
  }

  lemma {:induction false} RebuiltIds(docs: seq<Doc>, postings: map<string, set<nat>>)
    requires forall t :: PostingOf(postings, t) == Posted(docs, t)
    ensures forall id :: id in PostedIds(postings) <==> HasToken(docs, id)
    ensures PostedIds(postings) <= Ids(docs)
  {
    forall id ensures id in PostedIds(postings) <==> HasToken(docs, id) {
      if HasToken(docs, id) {
        var t :| id in Posted(docs, t);
        assert id in PostingOf(postings, t);
      }
      if id in PostedIds(postings) {
        var t :| t in postings && id in postings[t];
        assert id in PostingOf(postings, t) && PostingOf(postings, t) == Posted(docs, t);
      }
    }
    forall id | HasToken(docs, id) ensures id in Ids(docs) {
      var t :| id in Posted(docs, t);
    }
  }

  lemma {:induction false} NothingToFind(logs: Logs, docs: seq<Doc>, loaded: seq<Doc>, query: seq<string>,
      out: seq<Hit>)
    requires forall t :: Posted(loaded, t) == Posted(docs, t)
    requires forall id :: id in Ids(docs) ==> !HasToken(docs, id)
    ensures IsRanking(logs, docs, query, out) <==> IsRanking(logs, loaded, query, out)
  {
    forall id ensures !SharesToken(docs, query, id) && !SharesToken(loaded, query, id) {
      forall t | t in query ensures id !in Posted(docs, t) {
        assert id in Posted(docs, t) ==> id in Ids(docs);
        assert id in Posted(docs, t) ==> HasToken(docs, id);
      }
    }
    OnlyTheEmptyRanking(logs, docs, query, out);
    OnlyTheEmptyRanking(logs, loaded, query, out);
  }

  lemma {:induction false} OnlyTheEmptyRanking(logs: Logs, docs: seq<Doc>, query: seq<string>, out: seq<Hit>)
    requires forall id :: !SharesToken(docs, query, id)
    ensures IsRanking(logs, docs, query, out) <==> out == []
  {
    assert IsRanking(logs, docs, query, out) && out != [] ==> SharesToken(docs, query, out[0].id);
  }

  lemma {:induction false} SamePostingsSameGains(logs: Logs, docs: seq<Doc>, loaded: seq<Doc>, query: seq<string>,
      terms: seq<string>, id: nat)
    requires |Ids(loaded)| == |Ids(docs)| && forall t :: Posted(loaded, t) == Posted(docs, t)
    ensures Gains(logs, docs, query, terms, id) == Gains(logs, loaded, query, terms, id)
    ensures Matched(docs, terms, id) == Matched(loaded, terms, id)
  {
    if terms != [] {
      SamePostingsSameGains(logs, docs, loaded, query, terms[..|terms| - 1], id);
      var t := terms[|terms| - 1];
      assert Posted(loaded, t) == Posted(docs, t);
    }
  }

  lemma {:induction false} SamePostingsSameRanking(logs: Logs, docs: seq<Doc>, loaded: seq<Doc>, query: seq<string>,
      out: seq<Hit>)
    requires |Ids(loaded)| == |Ids(docs)| && forall t :: Posted(loaded, t) == Posted(docs, t)
    ensures IsRanking(logs, docs, query, out) <==> IsRanking(logs, loaded, query, out)
  {
    forall id ensures Score(logs, docs, query, id) == Score(logs, loaded, query, id) {
      SamePostingsSameGains(logs, docs, loaded, query, Terms(query), id);
    }
    forall id ensures SharesToken(docs, query, id) <==> SharesToken(loaded, query, id) {
      assert forall t :: Posted(loaded, t) == Posted(docs, t);
    }
  }

  /** The score of a query of one term tells how many documents the index counts. */
  lemma {:induction false} ForgottenDocument(alnum: Alnum, logs: Logs, docs: seq<Doc>, loaded: seq<Doc>, t: string,
      id: nat, gone: nat)
    requires AreLogs(logs) && AreInserted(alnum, docs) && forall t :: Posted(loaded, t) == Posted(docs, t)
    requires Ids(loaded) <= Ids(docs) && gone in Ids(docs) && gone !in Ids(loaded) && id in Posted(docs, t)
    ensures !SearchesAgree(alnum, logs, docs, loaded)
  {
    var text := PostedTokenIsAQuery(alnum, docs, t, id);
    var query := Tokenize(alnum, text);
    var out := RankingExists(logs, docs, query);
    OneTermTells(logs, docs, loaded, t, id, gone, out);
    assert !(IsRanking(logs, docs, query, out) <==> IsRanking(logs, loaded, query, out));
  }

  lemma {:induction false} PostedTokenIsAQuery(alnum: Alnum, docs: seq<Doc>, t: string, id: nat) returns (text: string)
    requires AreInserted(alnum, docs) && id in Posted(docs, t)
    ensures Tokenize(alnum, text) == [t]
  {
    var k :| 0 <= k < |docs| && t in docs[k].tokens && docs[k].id == id;
    assert docs[k] in docs;
    var source :| docs[k].tokens == Tokenize(alnum, source);
    text := TokenIsAQuery(alnum, source, t);
  }

  lemma {:induction false} OneTermTells(logs: Logs, docs: seq<Doc>, loaded: seq<Doc>, t: string, id: nat, gone: nat,
      out: seq<Hit>)
    requires AreLogs(logs) && forall t :: Posted(loaded, t) == Posted(docs, t)
    requires Ids(loaded) <= Ids(docs) && gone in Ids(docs) && gone !in Ids(loaded) && id in Posted(docs, t)
    requires IsRanking(logs, docs, [t], out)
    ensures !IsRanking(logs, loaded, [t], out)
  {
    ProperSubset(Ids(loaded), Ids(docs), gone);
    assert id in Posted(loaded, t);
    ScoreOfOneTerm(logs, docs, t, id);
    ScoreOfOneTerm(logs, loaded, t, id);
    MoreDocumentsMoreScore(logs, |Ids(loaded)|, |Ids(docs)|, |Posted(docs, t)|);
    assert SharesToken(docs, [t], id) by { assert t in [t]; }
    var k :| 0 <= k < |out| && out[k].id == id;
    assert out[k].score != Score(logs, loaded, [t], id);
  }

  lemma {:induction false} ProperSubset(a: set<nat>, b: set<nat>, x: nat)
    requires a <= b && x in b && x !in a
    ensures |a| < |b|
  {
    SubsetSize(a, b - {x});
  }

  lemma {:induction false} SubsetSize(a: set<nat>, b: set<nat>)
    requires a <= b
    ensures |a| <= |b|
    decreases |a|
  {
    if a != {} {
      var x :| x in a;
      SubsetSize(a - {x}, b - {x});
    }
  }

  lemma {:induction false} ScoreOfOneTerm(logs: Logs, docs: seq<Doc>, t: string, id: nat)
    requires id in Posted(docs, t)
    ensures Score(logs, docs, [t], id) == TermGain(logs, |Ids(docs)|, |Posted(docs, t)|, 1) + 0.2
    ensures 1 <= |Posted(docs, t)| <= |Ids(docs)|
  {
    var query := [t];
    assert Terms(query) == [t] by {
      assert (set u | u in query) == {t};
      assert Terms(query)[0] in Terms(query);
    }
    assert query[..0] == [];
    assert Count(query, t) == Count([], t) + 1 == 1;
    GainsOfOneTerm(logs, docs, query, t, id);
    SubsetSize({id}, Posted(docs, t));
    SubsetSize(Posted(docs, t), Ids(docs));
  }

  lemma {:induction false} GainsOfOneTerm(logs: Logs, docs: seq<Doc>, query: seq<string>, t: string, id: nat)
    requires id in Posted(docs, t)
    ensures Gains(logs, docs, query, [t], id) == Gain(logs, docs, query, t) && Matched(docs, [t], id) == 1
  {
    assert [t][..0] == [];
    assert Gains(logs, docs, query, [], id) == 0.0 && Matched(docs, [], id) == 0;
  }

  /** More documents, more weight for a term; the logarithm of more than one is positive, so nothing is cut at zero. */
  lemma {:induction false} MoreDocumentsMoreScore(logs: Logs, few: nat, many: nat, df: nat)
    requires AreLogs(logs) && 1 <= df <= few < many
    ensures TermGain(logs, few, df, 1) < TermGain(logs, many, df, 1)
  {
    var d := df as real;
    var x, y := (few as real - d + 0.5) / (d + 0.5) + 1.0, (many as real - d + 0.5) / (d + 0.5) + 1.0;
    MoreIsMore(few as real - d + 0.5, many as real - d + 0.5, d + 0.5);
    assert logs.ln(1.0) < logs.ln(x) < logs.ln(y);
    assert logs.ln1p(1.0) >= 0.0;
    MoreWeighs(logs.ln(x), logs.ln(y), Weight(logs, 1));
  }

  lemma {:induction false} MoreIsMore(a: real, b: real, c: real)
    requires 0.0 < a < b && 0.0 < c
    ensures 0.0 < a / c < b / c
  {
    assert a / c * c == a && b / c * c == b;
  }

  lemma {:induction false} MoreWeighs(a: real, b: real, w: real)
    requires a < b && w > 0.0
    ensures a * w < b * w
  {
  }

  // ---------- what the score favours ----------

  /** A query that says one word some times over. */
  function Repeated(t: string, times: nat): (query: seq<string>)
    ensures |query| == times && forall i :: 0 <= i < times ==> query[i] == t
  {
    seq(times, i => t)
  }

  lemma {:induction false} CountRepeated(t: string, times: nat)
    ensures Count(Repeated(t, times), t) == times
  {
    if times > 0 {
      CountRepeated(t, times - 1);
      assert Repeated(t, times)[..times - 1] == Repeated(t, times - 1);
    }
  }

  /** The weight of a term that `df` of `n` documents hold and the query says `tf` times. */
  lemma {:induction false} RepeatedScore(logs: Logs, docs: seq<Doc>, t: string, times: nat, id: nat)
    requires times > 0 && id in Posted(docs, t)
    ensures 1 <= |Posted(docs, t)| <= |Ids(docs)|
    ensures var n, df := |Ids(docs)| as real, |Posted(docs, t)| as real;
      var idf := logs.ln((n - df + 0.5) / (df + 0.5) + 1.0);
      Score(logs, docs, Repeated(t, times), id) ==
        (if idf < 0.0 then 0.0 else idf) * (1.0 + logs.ln1p(times as real)) + 0.2
  {
    var query := Repeated(t, times);
    CountRepeated(t, times);
    assert query[0] == t;
    assert (set u | u in query) == {t};
    assert Terms(query) == [t] by { assert Terms(query)[0] in Terms(query); }
    GainsOfOneTerm(logs, docs, query, t, id);
    SubsetSize({id}, Posted(docs, t));
    SubsetSize(Posted(docs, t), Ids(docs));
  }

  /** The fewer documents hold a term, the more it weighs; and never less than nothing. */
  lemma {:induction false} RareTermsWeighMore(logs: Logs, n: nat, rare: nat, common: nat, tf: nat)
    requires AreLogs(logs) && 1 <= rare < common <= n
    ensures 0.0 < TermGain(logs, n, common, tf) < TermGain(logs, n, rare, tf)
  {
    var m, r, c := n as real, rare as real, common as real;
    var x, y := (m - c + 0.5) / (c + 0.5), (m - r + 0.5) / (r + 0.5);
    MoreIsMore(m - c + 0.5, m - r + 0.5, c + 0.5);
    LargerShare(m - r + 0.5, r + 0.5, c + 0.5);
    assert 0.0 < x < y;
    assert logs.ln(1.0) < logs.ln(x + 1.0) < logs.ln(y + 1.0);
    assert logs.ln1p(tf as real) >= 0.0;
    MoreWeighs(logs.ln(x + 1.0), logs.ln(y + 1.0), Weight(logs, tf));
    MoreWeighs(0.0, logs.ln(x + 1.0), Weight(logs, tf));
  }

  lemma {:induction false} LargerShare(a: real, less: real, more: real)
    requires 0.0 < a && 0.0 < less < more
    ensures a / more < a / less
  {
    assert a / more * more == a && a / less * less == a;
    MoreWeighs(less, more, a / more);
  }

  /** Saying a term again weighs more, when `ln_1p` grows. */
  lemma {:induction false} RepeatedTermsWeighMore(logs: Logs, docs: seq<Doc>, t: string, few: nat, many: nat, id: nat)
    requires AreLogs(logs) && (forall x, y :: 0.0 <= x < y ==> logs.ln1p(x) < logs.ln1p(y))
    requires 0 < few < many && id in Posted(docs, t)
    ensures Score(logs, docs, Repeated(t, few), id) < Score(logs, docs, Repeated(t, many), id)
  {
    var n, df := |Ids(docs)| as real, |Posted(docs, t)| as real;
    var idf := logs.ln((n - df + 0.5) / (df + 0.5) + 1.0);
    assert 1.0 <= df <= n by { RepeatedScore(logs, docs, t, few, id); }
    IdfIsPositive(logs, n, df);
    PositiveScore(logs, docs, t, few, id, idf);
    PositiveScore(logs, docs, t, many, id, idf);
    MoreTimes(idf, logs.ln1p(few as real), logs.ln1p(many as real));
  }

  lemma {:induction false} PositiveScore(logs: Logs, docs: seq<Doc>, t: string, times: nat, id: nat, idf: real)
    requires times > 0 && id in Posted(docs, t) && idf > 0.0
    requires var n, df := |Ids(docs)| as real, |Posted(docs, t)| as real;
      df > 0.0 && idf == logs.ln((n - df + 0.5) / (df + 0.5) + 1.0)
    ensures Score(logs, docs, Repeated(t, times), id) == idf * (1.0 + logs.ln1p(times as real)) + 0.2
  {
    RepeatedScore(logs, docs, t, times, id);
  }

  lemma {:induction false} MoreTimes(idf: real, a: real, b: real)
    requires idf > 0.0 && a < b
    ensures idf * (1.0 + a) + 0.2 < idf * (1.0 + b) + 0.2
  {
    MoreWeighs(1.0 + a, 1.0 + b, idf);
  }

  lemma {:induction false} IdfIsPositive(logs: Logs, n: real, df: real)
    requires AreLogs(logs) && 1.0 <= df <= n
    ensures logs.ln((n - df + 0.5) / (df + 0.5) + 1.0) > 0.0
  {
    MoreIsMore(0.25, n - df + 0.5, df + 0.5);
    assert logs.ln(1.0) < logs.ln((n - df + 0.5) / (df + 0.5) + 1.0);
  }

  /** The term is the only one of the query's that the document holds. */
  ghost predicate HoldsOnly(docs: seq<Doc>, query: seq<string>, t: string, id: nat) {
    t in query && forall u :: u in query ==> (id in Posted(docs, u) <==> u == t)
  }

  lemma {:induction false} GainsOfOnly(logs: Logs, docs: seq<Doc>, query: seq<string>, terms: seq<string>, t: string,
      id: nat)
    requires forall i, j :: 0 <= i < j < |terms| ==> terms[i] != terms[j]
    requires forall u :: u in terms ==> (id in Posted(docs, u) <==> u == t)
    ensures Gains(logs, docs, query, terms, id) == if t in terms then Gain(logs, docs, query, t) else 0.0
    ensures Matched(docs, terms, id) == if t in terms then 1 else 0
  {
    if terms != [] {
      var before, last := terms[..|terms| - 1], terms[|terms| - 1];
      assert terms == before + [last];
      GainsOfOnly(logs, docs, query, before, t, id);
      assert last !in before;
    }
  }

  /**
   * Of two documents that hold one term of the query each, as often asked for, the one with the rarer term comes first.
   */
  lemma {:induction false} RarerTermFirst(logs: Logs, docs: seq<Doc>, query: seq<string>, t: string, u: string, a: nat,
      b: nat, out: seq<Hit>)
    requires AreLogs(logs) && IsRanking(logs, docs, query, out)
    requires HoldsOnly(docs, query, t, a) && HoldsOnly(docs, query, u, b)
    requires |Posted(docs, t)| < |Posted(docs, u)| && Count(query, t) == Count(query, u)
    ensures exists i, j :: 0 <= i < j < |out| && out[i].id == a && out[j].id == b
  {
    RarerScoresMore(logs, docs, query, t, u, a, b);
    HigherIsFirst(logs, docs, query, a, b, out);
  }

  lemma {:induction false} RarerScoresMore(logs: Logs, docs: seq<Doc>, query: seq<string>, t: string, u: string, a: nat,
      b: nat)
    requires AreLogs(logs) && HoldsOnly(docs, query, t, a) && HoldsOnly(docs, query, u, b)
    requires |Posted(docs, t)| < |Posted(docs, u)| && Count(query, t) == Count(query, u)
    ensures Score(logs, docs, query, a) > Score(logs, docs, query, b)
  {
    GainsOfOnly(logs, docs, query, Terms(query), t, a);
    GainsOfOnly(logs, docs, query, Terms(query), u, b);
    SubsetSize({a}, Posted(docs, t));
    SubsetSize(Posted(docs, u), Ids(docs));
    RareTermsWeighMore(logs, |Ids(docs)|, |Posted(docs, t)|, |Posted(docs, u)|, Count(query, t));
  }

  lemma {:induction false} HigherIsFirst(logs: Logs, docs: seq<Doc>, query: seq<string>, a: nat, b: nat, out: seq<Hit>)
    requires IsRanking(logs, docs, query, out) && SharesToken(docs, query, a) && SharesToken(docs, query, b)
    requires Score(logs, docs, query, a) > Score(logs, docs, query, b)
    ensures exists i, j :: 0 <= i < j < |out| && out[i].id == a && out[j].id == b
  {
    var i :| 0 <= i < |out| && out[i].id == a;
    var j :| 0 <= j < |out| && out[j].id == b;
    StandsFirst(out, i, j);
  }

  lemma {:induction false} StandsFirst(out: seq<Hit>, i: nat, j: nat)
    requires forall a, b :: 0 <= a < b < |out| ==> Before(out[a], out[b])
    requires i < |out| && j < |out| && out[i].score > out[j].score
    ensures i < j
  {
  }

  // ---------- searching ----------

  ghost predicate Before(a: Hit, b: Hit) {
    a.score > b.score || (a.score == b.score && a.id < b.id)
  }

  /**
   * The full scan's answer: the documents that share a token, each once, with the scores of a recount, in rank order.
   */
  ghost predicate IsRanking(logs: Logs, docs: seq<Doc>, query: seq<string>, out: seq<Hit>) {
    && (forall i, j :: 0 <= i < j < |out| ==> Before(out[i], out[j]))
    && (forall k :: 0 <= k < |out| ==>
      SharesToken(docs, query, out[k].id) && out[k].score == Score(logs, docs, query, out[k].id))
    && (forall id :: SharesToken(docs, query, id) ==> exists k :: 0 <= k < |out| && out[k].id == id)
  }

  /** The documents of some inserted texts. */
  function DocsFor(alnum: Alnum, texts: seq<(nat, string)>): (docs: seq<Doc>)
    ensures |docs| == |texts| && forall k :: 0 <= k < |docs| ==> docs[k] == Doc(texts[k].0, Tokenize(alnum, texts[k].1))
  {
    seq(|texts|, k requires 0 <= k < |texts| => Doc(texts[k].0, Tokenize(alnum, texts[k].1)))
  }

  /** The text has the word, a maximal stretch of marked characters, when it is put in lower case. */
  ghost predicate HasWordAt(alnum: Alnum, s: string, w: string, r: Span) {
    IsRun(Marks(alnum, s), r) && Spells(s, r, w)
  }

  /** Two texts have a word in common, but for the case of its letters. */
  ghost predicate ShareWord(alnum: Alnum, s: string, t: string) {
    exists w, a, b :: HasWordAt(alnum, s, w, a) && HasWordAt(alnum, t, w, b)
  }

  lemma {:induction false} TokenHasPlace(alnum: Alnum, s: string, w: string) returns (r: Span)
    requires w in Tokenize(alnum, s)
    ensures HasWordAt(alnum, s, w, r)
  {
    var runs := TokenizeMeans(alnum, s);
    var k :| 0 <= k < |runs| && Tokenize(alnum, s)[k] == w;
    r := runs[k];
  }

  lemma {:induction false} PlaceIsToken(alnum: Alnum, s: string, w: string, r: Span)
    requires HasWordAt(alnum, s, w, r)
    ensures w in Tokenize(alnum, s)
  {
    var runs := TokenizeMeans(alnum, s);
    assert r in runs;
    var k :| 0 <= k < |runs| && runs[k] == r;
    SameSpelling(s, s, r, w, Tokenize(alnum, s)[k]);
  }

  lemma {:induction false} FoundHasWord(alnum: Alnum, texts: seq<(nat, string)>, query: string, id: nat)
      returns (k: nat)
    requires SharesToken(DocsFor(alnum, texts), Tokenize(alnum, query), id)
    ensures k < |texts| && texts[k].0 == id && ShareWord(alnum, texts[k].1, query)
  {
    var docs := DocsFor(alnum, texts);
    var w :| w in Tokenize(alnum, query) && id in Posted(docs, w);
    k :| 0 <= k < |docs| && w in docs[k].tokens && docs[k].id == id;
    var a := TokenHasPlace(alnum, texts[k].1, w);
    var b := TokenHasPlace(alnum, query, w);
  }

  lemma {:induction false} WordIsFound(alnum: Alnum, texts: seq<(nat, string)>, query: string, k: nat)
    requires k < |texts| && ShareWord(alnum, texts[k].1, query)
    ensures SharesToken(DocsFor(alnum, texts), Tokenize(alnum, query), texts[k].0)
  {
    var w, a, b :| HasWordAt(alnum, texts[k].1, w, a) && HasWordAt(alnum, query, w, b);
    PlaceIsToken(alnum, texts[k].1, w, a);
    PlaceIsToken(alnum, query, w, b);
    assert DocsFor(alnum, texts)[k] == Doc(texts[k].0, Tokenize(alnum, texts[k].1));
  }

  /**
   * A search finds exactly the documents with a text that has a word in common with the query, whatever the case of
   * its letters.
   */
  lemma {:induction false} FoundByWord(alnum: Alnum, logs: Logs, texts: seq<(nat, string)>, query: string,
      out: seq<Hit>, id: nat)
    requires IsRanking(logs, DocsFor(alnum, texts), Tokenize(alnum, query), out)
    ensures (exists k :: 0 <= k < |out| && out[k].id == id) <==>
      exists k :: 0 <= k < |texts| && texts[k].0 == id && ShareWord(alnum, texts[k].1, query)
  {
    if SharesToken(DocsFor(alnum, texts), Tokenize(alnum, query), id) {
      var k := FoundHasWord(alnum, texts, query, id);
    }
    forall k | 0 <= k < |texts| && texts[k].0 == id && ShareWord(alnum, texts[k].1, query)
      ensures SharesToken(DocsFor(alnum, texts), Tokenize(alnum, query), id)
    {
      WordIsFound(alnum, texts, query, k);
    }
  }

  method CountTerms(query: seq<string>) returns (tf: map<string, nat>)
    ensures forall t :: t in tf <==> t in query
    ensures forall t :: t in tf ==> tf[t] == Count(query, t) > 0
  {
    tf := map[];
    for k := 0 to |query|
      invariant forall t :: t in tf <==> t in query[..k]
      invariant forall t :: Count(query[..k], t) == if t in tf then tf[t] else 0
      invariant forall t :: t in tf ==> tf[t] > 0
    {
      var t := query[k];
      assert query[..k + 1] == query[..k] + [t];
      assert query[..k + 1][..k] == query[..k];
      tf := tf[t := (if t in tf then tf[t] else 0) + 1];
    }
    assert query[..|query|] == query;
  }

  /** The tables after some of the terms: the documents that hold one of them, with their gains and counts. */
  ghost predicate Scored(logs: Logs, docs: seq<Doc>, query: seq<string>, terms: seq<string>, scores: map<nat, real>,
      matched: map<nat, nat>) {
    && (forall d: nat :: d in scores <==> Matched(docs, terms, d) > 0)
    && scores.Keys == matched.Keys
    && (forall d :: d in scores ==>
      scores[d] == Gains(logs, docs, query, terms, d) && matched[d] == Matched(docs, terms, d))
  }

  /** The table with the entries of `ids` raised, absent ones from zero. */
  predicate Raised<T(==)>(before: map<nat, T>, after: map<nat, T>, ids: set<nat>, zero: T, plus: T -> T) {
    && after.Keys == before.Keys + ids
    && (forall d :: d in after ==>
      after[d] == if d !in ids then before[d] else plus(if d in before then before[d] else zero))
  }

  lemma {:induction false} RaisedOne<T>(before: map<nat, T>, after: map<nat, T>, ids: set<nat>, zero: T, plus: T -> T,
      id: nat)
    requires Raised(before, after, ids, zero, plus) && id !in ids
    ensures Raised(before, after[id := plus(if id in after then after[id] else zero)], ids + {id}, zero, plus)
  {
  }

  function Plus(gain: real): real -> real { (x: real) => x + gain }

  function Successor(): nat -> nat { (n: nat) => n + 1 }

  /** The inner loop: every document of a posting list gains, and has matched a term more. */
  method AddGain(scores: map<nat, real>, matched: map<nat, nat>, ids: set<nat>, gain: real)
    returns (scores': map<nat, real>, matched': map<nat, nat>)
    ensures Raised(scores, scores', ids, 0.0, Plus(gain)) && Raised(matched, matched', ids, 0, Successor())
  {
    scores', matched' := scores, matched;
    var rest := ids;
    while rest != {}
      invariant rest <= ids
      invariant Raised(scores, scores', ids - rest, 0.0, Plus(gain)) &&
        Raised(matched, matched', ids - rest, 0, Successor())
      decreases |rest|
    {
      var id :| id in rest;
      RaisedOne(scores, scores', ids - rest, 0.0, Plus(gain), id);
      RaisedOne(matched, matched', ids - rest, 0, Successor(), id);
      assert ids - (rest - {id}) == ids - rest + {id};
      scores' := scores'[id := Plus(gain)(if id in scores' then scores'[id] else 0.0)];
      matched' := matched'[id := Successor()(if id in matched' then matched'[id] else 0)];
      rest := rest - {id};
    }
    assert ids - rest == ids;
  }

  lemma {:induction false} NoMatchNoGain(logs: Logs, docs: seq<Doc>, query: seq<string>, terms: seq<string>, id: nat)
    requires Matched(docs, terms, id) == 0
    ensures Gains(logs, docs, query, terms, id) == 0.0
  {
    if terms != [] { NoMatchNoGain(logs, docs, query, terms[..|terms| - 1], id); }
  }

  /** What one more term does to a document. */
  lemma {:induction false} TermNext(logs: Logs, docs: seq<Doc>, query: seq<string>, terms: seq<string>, i: nat, d: nat)
    requires i < |terms|
    ensures Matched(docs, terms[..i + 1], d) == Matched(docs, terms[..i], d) + if d in Posted(docs, terms[i]) then
      1 else 0
    ensures Gains(logs, docs, query, terms[..i + 1], d) ==
            Gains(logs, docs, query, terms[..i], d) + if d in Posted(docs, terms[i]) then
              Gain(logs, docs, query, terms[i]) else 0.0
  {
    var more := terms[..i + 1];
    assert more[..|more| - 1] == terms[..i] && more[|more| - 1] == terms[i];
  }

  /** One more term, with its gain added to the documents it is posted in. */
  lemma {:induction false} ScoredNext(logs: Logs, docs: seq<Doc>, query: seq<string>, terms: seq<string>, i: nat,
      ids: set<nat>, gain: real,
                                      scores: map<nat, real>, matched: map<nat, nat>,
                                      scores': map<nat, real>, matched': map<nat, nat>)
    requires i < |terms| && ids == Posted(docs, terms[i]) && (ids != {} ==> gain == Gain(logs, docs, query, terms[i]))
    requires Scored(logs, docs, query, terms[..i], scores, matched)
    requires Raised(scores, scores', ids, 0.0, Plus(gain)) && Raised(matched, matched', ids, 0, Successor())
    ensures Scored(logs, docs, query, terms[..i + 1], scores', matched')
  {
    forall d: nat
      ensures d in scores' <==> Matched(docs, terms[..i + 1], d) > 0
      ensures d in scores' ==> d in matched' && scores'[d] == Gains(logs, docs, query, terms[..i + 1], d)
                               && matched'[d] == Matched(docs, terms[..i + 1], d)
    {
      TermNext(logs, docs, query, terms, i, d);
      ScoreNext(logs, docs, query, terms, i, gain, scores, matched, d);
    }
  }

  lemma {:induction false} ScoreNext(logs: Logs, docs: seq<Doc>, query: seq<string>, terms: seq<string>, i: nat,
      gain: real,
                                     scores: map<nat, real>, matched: map<nat, nat>, d: nat)
    requires i < |terms| && Scored(logs, docs, query, terms[..i], scores, matched)
    ensures d !in scores ==> Gains(logs, docs, query, terms[..i], d) == 0.0 && Matched(docs, terms[..i], d) == 0
  {
    if d !in scores { NoMatchNoGain(logs, docs, query, terms[..i], d); }
  }

  lemma {:induction false} MatchedIsShared(docs: seq<Doc>, terms: seq<string>, id: nat)
    ensures Matched(docs, terms, id) > 0 <==> exists t :: t in terms && id in Posted(docs, t)
  {
    if terms != [] {
      var before, last := terms[..|terms| - 1], terms[|terms| - 1];
      MatchedIsShared(docs, before, id);
      assert terms == before + [last];
      assert last in terms;
    }
  }

  lemma {:induction false} SharedIsMatched(docs: seq<Doc>, query: seq<string>, id: nat)
    ensures SharesToken(docs, query, id) <==> Matched(docs, Terms(query), id) > 0
  {
    MatchedIsShared(docs, Terms(query), id);
  }

  function Clamp(x: real): real { if x < 0.0 then 0.0 else if x > 1.0 then 1.0 else x }

  lemma {:induction false} CoverageIsAShare(covered: nat, terms: nat)
    requires covered <= terms
    ensures Clamp(covered as real / MaxNat(terms, 1) as real) == covered as real / MaxNat(terms, 1) as real
  {
    Share(covered as real, MaxNat(terms, 1) as real);
  }

  lemma {:induction false} Share(c: real, n: real)
    requires 0.0 <= c <= n && n > 0.0
    ensures 0.0 <= c / n <= 1.0
  {
    assert c / n * n == c;
  }

  method AddCoverage(scores: map<nat, real>, matched: map<nat, nat>, terms: nat) returns (scores': map<nat, real>)
    requires scores.Keys == matched.Keys && forall d :: d in matched ==> matched[d] <= terms
    ensures scores'.Keys == scores.Keys
    ensures forall d :: d in scores ==> scores'[d] == scores[d] + matched[d] as real / MaxNat(terms, 1) as real * 0.2
  {
    scores' := scores;
    var rest := scores.Keys;
    while rest != {}
      invariant rest <= scores.Keys == scores'.Keys
      invariant forall d :: d in rest ==> scores'[d] == scores[d]
      invariant forall d :: d in scores.Keys - rest ==>
        scores'[d] == scores[d] + matched[d] as real / MaxNat(terms, 1) as real * 0.2
      decreases |rest|
    {
      var id :| id in rest;
      CoverageIsAShare(matched[id], terms);
      scores' := scores'[id := scores'[id] + Clamp(matched[id] as real / MaxNat(terms, 1) as real) * 0.2];
      rest := rest - {id};
    }
  }

  /** The entries of the table in rank order. */
  method Ranked(scores: map<nat, real>) returns (out: seq<Hit>)
    ensures Ranks(scores, out)
  {
    var hits: seq<Hit> := [];
    var rest := scores.Keys;
    while rest != {}
      invariant rest <= scores.Keys
      invariant forall k :: 0 <= k < |hits| ==> hits[k].id in scores.Keys - rest && hits[k].score == scores[hits[k].id]
      invariant forall id :: id in scores.Keys - rest ==> Hit(id, scores[id]) in hits
      invariant forall i, j :: 0 <= i < j < |hits| ==> hits[i].id != hits[j].id
      decreases |rest|
    {
      var id :| id in rest;
      hits := hits + [Hit(id, scores[id])];
      rest := rest - {id};
    }
    out := SortBy(RankOrder(), hits);
    RankedHits(scores, hits, out);
  }

  lemma {:induction false} RankedHits(scores: map<nat, real>, hits: seq<Hit>, out: seq<Hit>)
    requires out == SortBy(RankOrder(), hits)
    requires forall k :: 0 <= k < |hits| ==> hits[k].id in scores && hits[k].score == scores[hits[k].id]
    requires forall id :: id in scores ==> Hit(id, scores[id]) in hits
    requires forall i, j :: 0 <= i < j < |hits| ==> hits[i].id != hits[j].id
    ensures Ranks(scores, out)
  {
    RankIsTotal();
    SortSorts(RankOrder(), hits);
    SortKeepsElements(RankOrder(), hits);
    assert forall h :: h in hits ==> h.id in scores && h.score == scores[h.id];
    forall k | 0 <= k < |out| ensures out[k].id in scores && out[k].score == scores[out[k].id] { assert out[k] in out; }
    forall id | id in scores ensures exists k :: 0 <= k < |out| && out[k].id == id {
      assert Hit(id, scores[id]) in out;
    }
    DistinctKept(hits, out);
    forall i, j | 0 <= i < j < |out| ensures Before(out[i], out[j]) {
      assert RankOrder()(out[i], out[j]) && out[i] != out[j];
      assert out[i] in out && out[j] in out;
    }
  }

  /** The full scan has an answer. */
  lemma {:induction false} RankingExists(logs: Logs, docs: seq<Doc>, query: seq<string>) returns (out: seq<Hit>)
    ensures IsRanking(logs, docs, query, out)
  {
    var ids := set id | id in Ids(docs) && SharesToken(docs, query, id);
    var scores := map id | id in ids :: Score(logs, docs, query, id);
    out := TableRanking(scores);
    forall id | SharesToken(docs, query, id) ensures id in scores {
      var t :| t in query && id in Posted(docs, t);
      assert id in Ids(docs);
    }
  }

  function HitOf(scores: map<nat, real>): nat -> Hit {
    (id: nat) => Hit(id, if id in scores then scores[id] else 0.0)
  }

  lemma {:induction false} TableRanking(scores: map<nat, real>) returns (out: seq<Hit>)
    ensures Ranks(scores, out)
  {
    var hits := Mapped(HitOf(scores), Ascending(scores.Keys));
    out := SortBy(RankOrder(), hits);
    HitsOfTable(scores, Ascending(scores.Keys), hits);
    RankedHits(scores, hits, out);
  }

  lemma {:induction false} HitsOfTable(scores: map<nat, real>, ids: seq<nat>, hits: seq<Hit>)
    requires forall id :: id in ids <==> id in scores
    requires forall i, j :: 0 <= i < j < |ids| ==> ids[i] < ids[j]
    requires hits == Mapped(HitOf(scores), ids)
    ensures forall k :: 0 <= k < |hits| ==> hits[k].id in scores && hits[k].score == scores[hits[k].id]
    ensures forall id :: id in scores ==> Hit(id, scores[id]) in hits
    ensures forall i, j :: 0 <= i < j < |hits| ==> hits[i].id != hits[j].id
  {
    assert forall k :: 0 <= k < |ids| ==> ids[k] in ids && hits[k] == HitOf(scores)(ids[k]);
    forall id | id in scores ensures Hit(id, scores[id]) in hits {
      assert id in ids;
      var k :| 0 <= k < |ids| && ids[k] == id;
      assert hits[k] == Hit(id, scores[id]);
    }
  }

  /** And only one. */
  lemma {:induction false} RankingIsUnique(logs: Logs, docs: seq<Doc>, query: seq<string>, a: seq<Hit>, b: seq<Hit>)
    requires IsRanking(logs, docs, query, a) && IsRanking(logs, docs, query, b)
    ensures a == b
  {
    RankedIn(logs, docs, query, a, b);
    RankedIn(logs, docs, query, b, a);
    SameOrder(a, b);
  }

  lemma {:induction false} RankedIn(logs: Logs, docs: seq<Doc>, query: seq<string>, a: seq<Hit>, b: seq<Hit>)
    requires IsRanking(logs, docs, query, a) && IsRanking(logs, docs, query, b)
    ensures forall h :: h in a ==> h in b
  {
    forall h | h in a ensures h in b {
      var i :| 0 <= i < |a| && a[i] == h;
      assert SharesToken(docs, query, a[i].id);
      var k :| 0 <= k < |b| && b[k].id == h.id;
      assert b[k] == h;
    }
  }

  lemma {:induction false} SameOrder(a: seq<Hit>, b: seq<Hit>)
    requires forall i, j :: 0 <= i < j < |a| ==> Before(a[i], a[j])
    requires forall i, j :: 0 <= i < j < |b| ==> Before(b[i], b[j])
    requires (forall h :: h in a ==> h in b) && (forall h :: h in b ==> h in a)
    ensures a == b
  {
    assert a == [] || a[0] in b;
    assert b == [] || b[0] in a;
    if a != [] && b != [] {
      assert a[0] == b[0];
      forall h | h in a[1..] ensures h in b[1..] { Behind(a, b, h); }
      forall h | h in b[1..] ensures h in a[1..] { Behind(b, a, h); }
      SameOrder(a[1..], b[1..]);
    }
  }

  lemma {:induction false} Behind(a: seq<Hit>, b: seq<Hit>, h: Hit)
    requires a != [] && b != [] && a[0] == b[0] && h in a[1..]
    requires forall i, j :: 0 <= i < j < |a| ==> Before(a[i], a[j])
    requires forall h :: h in a ==> h in b
    ensures h in b[1..]
  {
    var i :| 0 <= i < |a[1..]| && a[1..][i] == h;
    assert Before(a[0], a[i + 1]) && a[i + 1] in a;
    var k :| 0 <= k < |b| && b[k] == h;
    assert b[1..][k - 1] == h;
  }

  lemma {:induction false} DistinctKept(s: seq<Hit>, t: seq<Hit>)
    requires forall i, j :: 0 <= i < j < |s| ==> s[i].id != s[j].id
    requires multiset(s) == multiset(t)
    ensures forall i, j :: 0 <= i < j < |t| ==> t[i] != t[j]
  {
    forall i, j | 0 <= i < j < |t| ensures t[i] != t[j] {
      OnceInSeq(s, t[i]);
      assert t == t[..i] + [t[i]] + t[i + 1..j] + [t[j]] + t[j + 1..];
      assert t[i] == t[j] ==> multiset(t)[t[i]] >= 2;
    }
  }

  lemma {:induction false} OnceInSeq(s: seq<Hit>, x: Hit)
    requires forall i, j :: 0 <= i < j < |s| ==> s[i].id != s[j].id
    ensures multiset(s)[x] <= 1
  {
    if s != [] {
      assert s == [s[0]] + s[1..];
      OnceInSeq(s[1..], x);
      if s[0] == x {
        forall k | 0 <= k < |s[1..]| ensures s[1..][k] != x { assert s[k + 1].id != s[0].id; }
        assert x !in multiset(s[1..]);
      }
    }
  }
}

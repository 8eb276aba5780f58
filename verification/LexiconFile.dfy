/** The lexicon and postings files of the index (crates/termlm-indexer/src/store.rs). */
module LexiconFile {
  import opened Wrappers
  import opened Ordering
  import opened Utf8
  import opened Binary
  import opened Chunks
  import opened Lexical
  import opened Retrieve

  datatype FileError = TooShort | BadMagic | Truncated | Underflow | BadText | CountMismatch | Overflow

  const LEXICON_MAGIC: Bytes := [84, 76, 77, 76, 48, 48, 48, 49]
  const POSTINGS_MAGIC: Bytes := [84, 76, 77, 80, 48, 48, 48, 49]

  // ---------- what is written ----------

  /** A token and the rows it occurs in, once for each occurrence. */
  datatype Row = Row(token: string, ids: seq<nat>)

  function IdBytes(ids: seq<nat>): (b: Bytes)
    ensures |b| == 4 * |ids|
  {
    if ids == [] then [] else U32(ids[0]) + IdBytes(ids[1..])
  }

  function PostingBytes(ids: seq<nat>): (b: Bytes)
    ensures |b| == 4 + 4 * |ids|
  {
    U32(|ids|) + IdBytes(ids)
  }

  function Capped32(n: nat): nat { if n < U32_LIMIT then n else U32_LIMIT - 1 }

  /** The lexicon record of a token whose postings start at `off`. */
  function LexiconBytes(row: Row, off: u64): Bytes {
    TokenBytes(Encode(row.token)) + NumberBytes(Capped32(|row.ids|), off, |PostingBytes(row.ids)|)
  }

  function TokenBytes(token: Bytes): Bytes { U32(|token|) + token }

  function NumberBytes(df: nat, off: u64, length: nat): Bytes { U32(df) + U64(off) + U32(length) }

  predicate RowFits(row: Row, off: nat) {
    && off < U64_LIMIT
    && (forall k :: 0 <= k < |row.ids| ==> row.ids[k] < U32_LIMIT)
    && |PostingBytes(row.ids)| < U32_LIMIT
    && Len(row.token) < U32_LIMIT
  }

  predicate RowsFit(rows: seq<Row>, off: nat)
    decreases |rows|
  {
    rows == [] || (RowFits(rows[0], off) && RowsFit(rows[1..], off + |PostingBytes(rows[0].ids)|))
  }

  function AllPostings(rows: seq<Row>): Bytes {
    if rows == [] then [] else PostingBytes(rows[0].ids) + AllPostings(rows[1..])
  }

  function AllLexicon(rows: seq<Row>, off: nat): Bytes
    requires RowsFit(rows, off)
    decreases |rows|
  {
    if rows == [] then [] else LexiconBytes(rows[0], off) + AllLexicon(rows[1..], off + |PostingBytes(rows[0].ids)|)
  }

  datatype Files = Files(lexicon: Bytes, postings: Bytes)

  function FilesOf(rows: seq<Row>): Result<Files, FileError> {
    if RowsFit(rows, 12) then
      Ok(Files(Header(LEXICON_MAGIC, |rows|) + AllLexicon(rows, 12),
        Header(POSTINGS_MAGIC, |rows|) + AllPostings(rows)))
    else Err(Overflow)
  }

  // ---------- what is read ----------

  /** A list of ids. */
  function TakeIds(count: nat, b: Bytes): Result<set<nat>, FileError> {
    if count == 0 then Ok({}) else
      match TakeU32(b)
      case None => Err(Underflow)
      case Some((id, rest)) =>
        match TakeIds(count - 1, rest)
        case Ok(ids) => Ok({id} + ids)
        case Err(e) => Err(e)
  }

  /** The posting list at an offset, which must hold what it announces. */
  function PostingAt(postings: Bytes, off: nat, length: nat): Result<set<nat>, FileError> {
    if off + length > |postings| then Err(Truncated) else
      match TakeU32(postings[off..])
      case None => Err(Underflow)
      case Some((count, rest)) =>
        if 4 + 4 * count > length then Err(Truncated) else TakeIds(count, rest)
  }

  datatype Entry = Entry(token: string, off: nat, length: nat)

  /** A lexicon record. */
  function TakeEntry(b: Bytes): Result<(Entry, Bytes), FileError> {
    match TakeU32(b)
    case None => Err(Underflow)
    case Some((length, b)) =>
      match TakeBytes(b, length)
      case None => Err(Truncated)
      case Some((token, b)) =>
        match Decode(token)
        case None => Err(BadText)
        case Some(token) => TakeNumbers(token, b)
  }

  function TakeNumbers(token: string, b: Bytes): Result<(Entry, Bytes), FileError> {
    match TakeU32(b)
    case None => Err(Underflow)
    case Some((_, b)) =>
      match TakeU64(b)
      case None => Err(Underflow)
      case Some((off, b)) =>
        match TakeU32(b)
        case None => Err(Underflow)
        case Some((length, b)) => Ok((Entry(token, off, length), b))
  }

  function TakeRow(b: Bytes, postings: Bytes): Result<((string, set<nat>), Bytes), FileError> {
    match TakeEntry(b)
    case Err(e) => Err(e)
    case Ok((entry, rest)) =>
      match PostingAt(postings, entry.off, entry.length)
      case Err(e) => Err(e)
      case Ok(ids) => Ok(((entry.token, ids), rest))
  }

  /** A way to take a token and its rows off the front. */
  type RowReader = Bytes -> Result<((string, set<nat>), Bytes), FileError>

  function RowsIn(postings: Bytes): RowReader { (b: Bytes) => TakeRow(b, postings) }

  function TakeRows(read: RowReader, count: nat, b: Bytes, found: map<string, set<nat>>): Result<map<string, set<nat>>,
      FileError> {
    if count == 0 then Ok(found) else
      match read(b)
      case Err(e) => Err(e)
      case Ok(((token, ids), rest)) => TakeRows(read, count - 1, rest, found[token := ids])
  }

  function PostingsOf(lexicon: Bytes, postings: Bytes): Result<map<string, set<nat>>, FileError> {
    if |lexicon| < 12 || |postings| < 12 then Err(TooShort)
    else if !(LEXICON_MAGIC <= lexicon) || !(POSTINGS_MAGIC <= postings) then Err(BadMagic)
    else
      match TakeRows(RowsIn(postings), GetU32(lexicon[8..12]), lexicon[12..], map[])
      case Err(e) => Err(e)
      case Ok(found) => if |found| == GetU32(postings[8..12]) then Ok(found) else Err(CountMismatch)
  }

  // ---------- the round trip ----------

  function IdSet(ids: seq<nat>): set<nat> { set id | id in ids }

  lemma {:induction false} IdsStep(count: nat, b: Bytes, id: nat, rest: Bytes, ids: set<nat>)
    requires count > 0 && TakeU32(b) == Some((id, rest)) && TakeIds(count - 1, rest) == Ok(ids)
    ensures TakeIds(count, b) == Ok({id} + ids)
  {
  }

  lemma {:induction false} IdsBack(ids: seq<nat>, rest: Bytes)
    requires forall k :: 0 <= k < |ids| ==> ids[k] < U32_LIMIT
    ensures TakeIds(|ids|, IdBytes(ids) + rest) == Ok(IdSet(ids))
  {
    if ids == [] {
      assert IdSet(ids) == {};
    } else {
      var tail := ids[1..];
      var later := IdBytes(tail) + rest;
      var n: nat := |tail|;
      assert IdSet(ids) == {ids[0]} + IdSet(tail) by { assert ids == [ids[0]] + tail; }
      assert IdBytes(ids) + rest == U32(ids[0]) + later;
      IdsBack(tail, rest);
      TakeU32Same(ids[0], later);
      IdsStep(n + 1, U32(ids[0]) + later, ids[0], later, IdSet(tail));
    }
  }

  lemma {:induction false} PostingBack(ids: seq<nat>, before: Bytes, rest: Bytes)
    requires |PostingBytes(ids)| < U32_LIMIT && forall k :: 0 <= k < |ids| ==> ids[k] < U32_LIMIT
    ensures PostingAt(before + PostingBytes(ids) + rest, |before|, |PostingBytes(ids)|) == Ok(IdSet(ids))
  {
    var file := before + PostingBytes(ids) + rest;
    assert file[|before|..] == U32(|ids|) + (IdBytes(ids) + rest);
    TakeU32Same(|ids|, IdBytes(ids) + rest);
    IdsBack(ids, rest);
  }

  lemma {:induction false} NumbersStep(token: string, b: Bytes, df: nat, b1: Bytes, off: nat, b2: Bytes, length: nat,
      rest: Bytes)
    requires TakeU32(b) == Some((df, b1)) && TakeU64(b1) == Some((off, b2)) && TakeU32(b2) == Some((length, rest))
    ensures TakeNumbers(token, b) == Ok((Entry(token, off, length), rest))
  {
  }

  lemma {:induction false} TokenStep(b: Bytes, length: nat, b1: Bytes, token: Bytes, text: string, rest: Bytes)
    requires TakeU32(b) == Some((length, b1)) && TakeBytes(b1, length) == Some((token, rest)) &&
      Decode(token) == Some(text)
    ensures TakeEntry(b) == TakeNumbers(text, rest)
  {
  }

  lemma {:induction false} RowStep(b: Bytes, postings: Bytes, entry: Entry, rest: Bytes, ids: set<nat>)
    requires TakeEntry(b) == Ok((entry, rest)) && PostingAt(postings, entry.off, entry.length) == Ok(ids)
    ensures TakeRow(b, postings) == Ok(((entry.token, ids), rest))
  {
  }

  lemma {:induction false} RowsStep(read: RowReader, n: nat, m: nat, b: Bytes, found: map<string, set<nat>>,
      token: string, ids: set<nat>, rest: Bytes)
    requires n > 0 && m == n - 1 && read(b) == Ok(((token, ids), rest))
    ensures TakeRows(read, n, b, found) == TakeRows(read, m, rest, found[token := ids])
  {
  }

  lemma {:induction false} NumbersBack(token: string, df: u32, off: u64, length: u32, rest: Bytes)
    ensures TakeNumbers(token, NumberBytes(df, off, length) + rest) == Ok((Entry(token, off, length), rest))
  {
    assert NumberBytes(df, off, length) + rest == U32(df) + (U64(off) + (U32(length) + rest));
    TakeU32Same(df, U64(off) + (U32(length) + rest));
    TakeU64Back(off, U32(length) + rest);
    TakeU32Same(length, rest);
    NumbersStep(token, NumberBytes(df, off, length) + rest, df, U64(off) + (U32(length) + rest), off,
      U32(length) + rest, length, rest);
  }

  lemma {:induction false} TokenBack(token: Bytes, rest: Bytes)
    requires |token| < U32_LIMIT && Decode(token).Some?
    ensures TakeEntry(TokenBytes(token) + rest) == TakeNumbers(Decode(token).value, rest)
  {
    assert TokenBytes(token) + rest == U32(|token|) + (token + rest);
    TakeU32Same(|token|, token + rest);
    TakeBytesBack(token, rest);
    TokenStep(TokenBytes(token) + rest, |token|, token + rest, token, Decode(token).value, rest);
  }

  lemma {:induction false} EntryBack(row: Row, off: u64, rest: Bytes)
    requires RowFits(row, off)
    ensures TakeEntry(LexiconBytes(row, off) + rest) == Ok((Entry(row.token, off, |PostingBytes(row.ids)|), rest))
  {
    var token, length := Encode(row.token), |PostingBytes(row.ids)|;
    var numbers := NumberBytes(Capped32(|row.ids|), off, length);
    DecodeEncode(row.token);
    assert LexiconBytes(row, off) + rest == TokenBytes(token) + (numbers + rest);
    TokenBack(token, numbers + rest);
    NumbersBack(row.token, Capped32(|row.ids|), off, length, rest);
  }

  lemma {:induction false} RowBack(row: Row, before: Bytes, later: Bytes, rest: Bytes)
    requires RowFits(row, |before|)
    ensures TakeRow(LexiconBytes(row, |before|) + rest, before + PostingBytes(row.ids) + later) ==
      Ok(((row.token, IdSet(row.ids)), rest))
  {
    EntryBack(row, |before|, rest);
    PostingBack(row.ids, before, later);
    RowStep(LexiconBytes(row, |before|) + rest, before + PostingBytes(row.ids) + later,
      Entry(row.token, |before|, |PostingBytes(row.ids)|), rest, IdSet(row.ids));
  }

  /** The map of tokens to the sets of their rows. */
  function Table(rows: seq<Row>, found: map<string, set<nat>>): map<string, set<nat>> {
    if rows == [] then found else Table(rows[1..], found[rows[0].token := IdSet(rows[0].ids)])
  }

  /** The first `n` records are read back when `n` are asked for. */
  lemma {:induction false} RowsBack(rows: seq<Row>, n: nat, before: Bytes, found: map<string, set<nat>>)
    requires n <= |rows| && RowsFit(rows, |before|)
    ensures TakeRows(RowsIn(before + AllPostings(rows)), n, AllLexicon(rows, |before|), found) ==
      Ok(Table(rows[..n], found))
    decreases n
  {
    if n > 0 {
      var row, later, posting := rows[0], rows[1..], PostingBytes(rows[0].ids);
      var all, on := before + AllPostings(rows), before + posting;
      LexiconMove(rows, |before|, |on|);
      var rest := AllLexicon(later, |on|);
      var more := found[row.token := IdSet(row.ids)];
      var m: nat := n - 1;
      calc {
        TakeRows(RowsIn(all), n, AllLexicon(rows, |before|), found);
        { RowBack(row, before, AllPostings(later), rest);
          PostingsMove(rows, before);
          RowsStep(RowsIn(all), n, m, LexiconBytes(row, |before|) + rest, found, row.token, IdSet(row.ids), rest); }
        TakeRows(RowsIn(all), m, rest, more);
        { PostingsMove(rows, before);
          RowsBack(later, m, on, more); }
        Ok(Table(later[..m], more));
        { TableNext(rows, n, m, found); }
        Ok(Table(rows[..n], found));
      }
    }
  }

  lemma {:induction false} LexiconMove(rows: seq<Row>, off: nat, next: nat)
    requires rows != [] && RowsFit(rows, off) && next == off + |PostingBytes(rows[0].ids)|
    ensures RowsFit(rows[1..], next) &&
      AllLexicon(rows, off) == LexiconBytes(rows[0], off) + AllLexicon(rows[1..], next)
  {
    FitMove(rows, off, next);
    RecordMove(rows, off, next, LexiconBytes(rows[0], off), AllLexicon(rows[1..], next));
  }

  lemma {:induction false} FitMove(rows: seq<Row>, off: nat, next: nat)
    requires rows != [] && RowsFit(rows, off) && next == off + |PostingBytes(rows[0].ids)|
    ensures RowFits(rows[0], off) && RowsFit(rows[1..], next)
  {
  }

  lemma {:induction false} RecordMove(rows: seq<Row>, off: nat, next: nat, record: Bytes, later: Bytes)
    requires rows != [] && RowsFit(rows, off) && next == off + |PostingBytes(rows[0].ids)| && RowFits(rows[0], off) &&
      RowsFit(rows[1..], next)
    requires record == LexiconBytes(rows[0], off) && later == AllLexicon(rows[1..], next)
    ensures AllLexicon(rows, off) == record + later
  {
  }

  lemma {:induction false} TableNext(rows: seq<Row>, n: nat, m: nat, found: map<string, set<nat>>)
    requires 0 < n <= |rows| && m == n - 1
    ensures Table(rows[..n], found) == Table(rows[1..][..m], found[rows[0].token := IdSet(rows[0].ids)])
  {
    assert rows[..n][0] == rows[0] && rows[..n][1..] == rows[1..][..m];
  }

  lemma {:induction false} PostingsMove(rows: seq<Row>, before: Bytes)
    requires rows != []
    ensures before + AllPostings(rows) == before + PostingBytes(rows[0].ids) + AllPostings(rows[1..])
  {
  }

  predicate DistinctTokens(rows: seq<Row>) {
    forall i, j :: 0 <= i < j < |rows| ==> rows[i].token != rows[j].token
  }

  lemma {:induction false} TableHolds(rows: seq<Row>, found: map<string, set<nat>>)
    requires DistinctTokens(rows) && forall k :: 0 <= k < |rows| ==> rows[k].token !in found
    ensures |Table(rows, found)| == |found| + |rows|
    ensures forall t :: t in Table(rows, found) <==> t in found || exists k :: 0 <= k < |rows| && rows[k].token == t
    ensures forall t :: t in found ==> Table(rows, found)[t] == found[t]
    ensures forall k :: 0 <= k < |rows| ==>
      rows[k].token in Table(rows, found) && Table(rows, found)[rows[k].token] == IdSet(rows[k].ids)
  {
    if rows != [] {
      var more := found[rows[0].token := IdSet(rows[0].ids)];
      assert more.Keys == found.Keys + {rows[0].token};
      assert |more| == |found| + 1;
      TableHolds(rows[1..], more);
      forall k | 0 <= k < |rows|
        ensures rows[k].token in Table(rows, found) && Table(rows, found)[rows[k].token] == IdSet(rows[k].ids)
      {
        if k > 0 { assert rows[1..][k - 1] == rows[k]; }
      }
      forall t ensures t in Table(rows, found) <==> t in found || exists k :: 0 <= k < |rows| && rows[k].token == t {
        if t in Table(rows, found) && t !in more {
          var k :| 0 <= k < |rows[1..]| && rows[1..][k].token == t;
          assert rows[k + 1].token == t;
        }
      }
    }
  }

  /** The files bring back the tokens with the sets of their rows, as many as a 32-bit count can tell. */
  lemma {:induction false} FilesRoundTrip(rows: seq<Row>, files: Files)
    requires FilesOf(rows) == Ok(files) && DistinctTokens(rows)
    ensures PostingsOf(files.lexicon, files.postings) == Ok(Table(rows[..Kept(|rows|)], map[]))
  {
    var n, lexicon, postings := Kept(|rows|), AllLexicon(rows, 12), AllPostings(rows);
    HeaderRead(LEXICON_MAGIC, |rows|, lexicon);
    HeaderRead(POSTINGS_MAGIC, |rows|, postings);
    RowsBack(rows, n, Header(POSTINGS_MAGIC, |rows|), map[]);
    TableHolds(rows[..n], map[]);
    HeadersRead(files.lexicon, files.postings, n, lexicon, Table(rows[..n], map[]));
  }

  lemma {:induction false} HeadersRead(lexicon: Bytes, postings: Bytes, n: nat, rest: Bytes,
      table: map<string, set<nat>>)
    requires |lexicon| >= 12 && |postings| >= 12 && LEXICON_MAGIC <= lexicon && POSTINGS_MAGIC <= postings
    requires GetU32(lexicon[8..12]) == n && GetU32(postings[8..12]) == n && lexicon[12..] == rest
    requires TakeRows(RowsIn(postings), n, rest, map[]) == Ok(table) && |table| == n
    ensures PostingsOf(lexicon, postings) == Ok(table)
  {
  }

  // ---------- the rows of a list of chunks ----------

  datatype Use = Use(token: string, id: nat)

  function JoinedText(c: Chunk): string {
    c.commandName + " " + c.sectionName + " " + c.text
  }

  function UsesOf(tokens: seq<string>, id: nat): seq<Use> {
    Mapped((t: string) => Use(t, id), tokens)
  }

  /** Every token of every row in order, with the row. */
  function Uses(alnum: Alnum, chunks: seq<Chunk>): seq<Use> {
    if chunks == [] then [] else
      var i := |chunks| - 1;
      Uses(alnum, chunks[..i]) + UsesOf(Tokenize(alnum, JoinedText(chunks[i])), i)
  }

  function IdsOf(uses: seq<Use>, token: string): seq<nat> {
    if uses == [] then [] else
      var last := uses[|uses| - 1];
      IdsOf(uses[..|uses| - 1], token) + if last.token == token then [last.id] else []
  }

  function Words(uses: seq<Use>): set<string> { set u | u in uses :: u.token }

  function RowOf(uses: seq<Use>): string -> Row { (t: string) => Row(t, IdsOf(uses, t)) }

  function RowsOf(uses: seq<Use>): seq<Row> {
    Mapped(RowOf(uses), SortedKeys(Words(uses)))
  }

  lemma {:induction false} IdsOfHolds(uses: seq<Use>, t: string, id: nat)
    ensures id in IdsOf(uses, t) <==> Use(t, id) in uses
  {
    if uses != [] {
      var before, last := uses[..|uses| - 1], uses[|uses| - 1];
      IdsOfHolds(before, t, id);
      assert uses == before + [last];
    }
  }

  lemma {:induction false} UsesHold(alnum: Alnum, chunks: seq<Chunk>, t: string, id: nat)
    ensures Use(t, id) in Uses(alnum, chunks) <==> id < |chunks| && t in Tokenize(alnum, JoinedText(chunks[id]))
  {
    if chunks != [] {
      var i := |chunks| - 1;
      UsesHold(alnum, chunks[..i], t, id);
      UsesOfHolds(Tokenize(alnum, JoinedText(chunks[i])), i, t, id);
    }
  }

  lemma {:induction false} UsesOfHolds(tokens: seq<string>, i: nat, t: string, id: nat)
    ensures Use(t, id) in UsesOf(tokens, i) <==> id == i && t in tokens
  {
    if id == i && t in tokens {
      var k :| 0 <= k < |tokens| && tokens[k] == t;
      assert UsesOf(tokens, i)[k] == Use(t, id);
    }
  }

  /** The joined text has the tokens of its three parts. */
  lemma {:induction false} JoinedWords(alnum: Alnum, c: Chunk, t: string)
    requires !alnum(' ')
    ensures t in Tokenize(alnum, JoinedText(c)) <==> HasWord(alnum, c, t)
  {
    var section := " " + c.sectionName;
    var text := " " + c.text;
    SpaceBefore(alnum, c.sectionName);
    SpaceBefore(alnum, c.text);
    assert JoinedText(c) == (c.commandName + section) + text;
    TokenizeJoined(alnum, c.commandName + section, text);
    TokenizeJoined(alnum, c.commandName, section);
  }

  lemma {:induction false} SpaceBefore(alnum: Alnum, s: string)
    requires !alnum(' ')
    ensures Tokenize(alnum, " " + s) == Tokenize(alnum, s)
  {
    assert (" " + s)[1..] == s;
  }

  // ---------- the files against the index in memory ----------

  /** A table of postings is the one inserting the chunks gives. */
  ghost predicate IsPostings(alnum: Alnum, chunks: seq<Chunk>, postings: map<string, set<nat>>) {
    forall t :: PostingOf(postings, t) == Posted(ChunkDocs(alnum, chunks), t)
  }

  lemma {:induction false} IdsOfChunks(alnum: Alnum, chunks: seq<Chunk>, t: string)
    requires !alnum(' ')
    ensures IdSet(IdsOf(Uses(alnum, chunks), t)) == Posted(ChunkDocs(alnum, chunks), t)
  {
    forall id: nat ensures id in IdsOf(Uses(alnum, chunks), t) <==> id in Posted(ChunkDocs(alnum, chunks), t) {
      IdsOfHolds(Uses(alnum, chunks), t, id);
      UsesHold(alnum, chunks, t, id);
      InsertedWords(alnum, chunks, t, id);
      if id < |chunks| { JoinedWords(alnum, chunks[id], t); }
    }
  }

  lemma {:induction false} RowsHold(uses: seq<Use>)
    ensures var rows := RowsOf(uses);
      && |rows| == |Words(uses)| && DistinctTokens(rows)
      && (forall k :: 0 <= k < |rows| ==> rows[k] == RowOf(uses)(rows[k].token) && rows[k].token in Words(uses))
    ensures forall t :: t in Words(uses) ==> exists k :: 0 <= k < |RowsOf(uses)| && RowsOf(uses)[k].token == t
  {
    RowsOfKeys(RowOf(uses), uses, SortedKeys(Words(uses)));
  }

  lemma {:induction false} RowsOfKeys(row: string -> Row, uses: seq<Use>, keys: seq<string>)
    requires forall t :: row(t) == Row(t, IdsOf(uses, t))
    requires forall i, j :: 0 <= i < j < |keys| ==> keys[i] != keys[j]
    ensures DistinctTokens(Mapped(row, keys))
    ensures forall k :: 0 <= k < |keys| ==>
      Mapped(row, keys)[k] == row(Mapped(row, keys)[k].token) && Mapped(row, keys)[k].token in keys
    ensures forall t :: t in keys ==> exists k :: 0 <= k < |keys| && Mapped(row, keys)[k].token == t
  {
    var rows := Mapped(row, keys);
    forall t | t in keys ensures exists k :: 0 <= k < |rows| && rows[k].token == t {
      var k :| 0 <= k < |keys| && keys[k] == t;
      assert rows[k].token == t;
    }
  }

  lemma {:induction false} NoUse(uses: seq<Use>, t: string)
    ensures t in Words(uses) <==> IdSet(IdsOf(uses, t)) != {}
  {
    if t in Words(uses) {
      var u :| u in uses && u.token == t;
      IdsOfHolds(uses, t, u.id);
      assert u.id in IdSet(IdsOf(uses, t));
    } else {
      forall id ensures id !in IdsOf(uses, t) {
        IdsOfHolds(uses, t, id);
        assert Use(t, id) in uses ==> Use(t, id).token in Words(uses);
      }
    }
  }

  lemma {:induction false} TableOfUses(uses: seq<Use>, t: string)
    ensures PostingOf(Table(RowsOf(uses), map[]), t) == IdSet(IdsOf(uses, t))
  {
    var rows := RowsOf(uses);
    RowsHold(uses);
    TableHolds(rows, map[]);
    NoUse(uses, t);
    if t in Words(uses) {
      var k :| 0 <= k < |rows| && rows[k].token == t;
      assert Table(rows, map[])[rows[k].token] == IdSet(rows[k].ids);
      assert rows[k] == Row(t, IdsOf(uses, t));
    } else {
      assert t !in Table(rows, map[]);
    }
  }

  lemma {:induction false} TableOfAll(alnum: Alnum, chunks: seq<Chunk>)
    requires !alnum(' ')
    ensures IsPostings(alnum, chunks, Table(RowsOf(Uses(alnum, chunks)), map[]))
  {
    forall t ensures PostingOf(Table(RowsOf(Uses(alnum, chunks)), map[]), t) == Posted(ChunkDocs(alnum, chunks), t) {
      TableOfUses(Uses(alnum, chunks), t);
      IdsOfChunks(alnum, chunks, t);
    }
  }

  lemma {:induction false} TableOfSome(alnum: Alnum, chunks: seq<Chunk>, n: nat)
    requires !alnum(' ') && n < |RowsOf(Uses(alnum, chunks))|
    ensures !IsPostings(alnum, chunks, Table(RowsOf(Uses(alnum, chunks))[..n], map[]))
  {
    var uses := Uses(alnum, chunks);
    var rows := RowsOf(uses);
    var t := rows[n].token;
    RowsHold(uses);
    TableHolds(rows[..n], map[]);
    NoUse(uses, t);
    IdsOfChunks(alnum, chunks, t);
    assert t !in Table(rows[..n], map[]);
    assert PostingOf(Table(rows[..n], map[]), t) != Posted(ChunkDocs(alnum, chunks), t);
  }

  /**
   * The files of a list of chunks are read back, and give the postings that inserting the chunks gives,
   * exactly when the number of tokens fits 32 bits.
   */
  lemma {:induction false} FilesHoldThePostings(alnum: Alnum, chunks: seq<Chunk>, files: Files)
    requires !alnum(' ') && FilesOf(RowsOf(Uses(alnum, chunks))) == Ok(files)
    ensures var loaded := PostingsOf(files.lexicon, files.postings);
      loaded.Ok? && (IsPostings(alnum, chunks, loaded.value) <==> |Words(Uses(alnum, chunks))| < U32_LIMIT)
  {
    var rows := RowsOf(Uses(alnum, chunks));
    RowsHold(Uses(alnum, chunks));
    FilesRoundTrip(rows, files);
    PrefixOfTable(alnum, chunks, Kept(|rows|));
  }

  lemma {:induction false} PrefixOfTable(alnum: Alnum, chunks: seq<Chunk>, n: nat)
    requires !alnum(' ') && n <= |RowsOf(Uses(alnum, chunks))|
    ensures IsPostings(alnum, chunks, Table(RowsOf(Uses(alnum, chunks))[..n], map[])) <==>
      n == |RowsOf(Uses(alnum, chunks))|
  {
    var rows := RowsOf(Uses(alnum, chunks));
    if n == |rows| {
      assert rows[..n] == rows;
      TableOfAll(alnum, chunks);
    } else {
      TableOfSome(alnum, chunks, n);
    }
  }

  ghost predicate HasSomeWord(alnum: Alnum, c: Chunk) {
    exists t :: HasWord(alnum, c, t)
  }

  /** The index loaded from the files answers as the one in memory exactly when every chunk has a token, or none has. */
  lemma {:induction false} LoadedIndexAgrees(alnum: Alnum, logs: Logs, chunks: seq<Chunk>, files: Files)
    requires AreLogs(logs) && !alnum(' ') && FilesOf(RowsOf(Uses(alnum, chunks))) == Ok(files) &&
      |Words(Uses(alnum, chunks))| < U32_LIMIT
    ensures PostingsOf(files.lexicon, files.postings).Ok?
    ensures (SearchesAgree(alnum, logs, ChunkDocs(alnum, chunks),
      DocsOf(PostingsOf(files.lexicon, files.postings).value)) <==>
          (forall c :: c in chunks ==> HasSomeWord(alnum, c)) || (forall c :: c in chunks ==> !HasSomeWord(alnum, c)))
  {
    FilesHoldThePostings(alnum, chunks, files);
    ChunksAreInserted(alnum, chunks);
    RebuiltSearchesAgree(alnum, logs, ChunkDocs(alnum, chunks), PostingsOf(files.lexicon, files.postings).value);
    WordsAreTokens(alnum, chunks);
  }

  lemma {:induction false} ChunksAreInserted(alnum: Alnum, chunks: seq<Chunk>)
    ensures AreInserted(alnum, ChunkDocs(alnum, chunks))
  {
    if chunks != [] {
      var i := |chunks| - 1;
      ChunksAreInserted(alnum, chunks[..i]);
    }
  }

  lemma {:induction false} WordsAreTokens(alnum: Alnum, chunks: seq<Chunk>)
    ensures var docs := ChunkDocs(alnum, chunks);
      && ((forall id :: id in Ids(docs) ==> HasToken(docs, id)) <==> forall c :: c in chunks ==> HasSomeWord(alnum, c))
      && ((forall id :: id in Ids(docs) ==> !HasToken(docs, id)) <==>
        forall c :: c in chunks ==> !HasSomeWord(alnum, c))
  {
    var docs := ChunkDocs(alnum, chunks);
    IdsOfChunkDocs(alnum, chunks);
    forall id | id in Ids(docs)
      ensures id < |chunks| && chunks[id] in chunks && (HasToken(docs, id) <==> HasSomeWord(alnum, chunks[id])) {
      ChunkHasToken(alnum, chunks, id);
    }
    if forall id :: id in Ids(docs) ==> HasToken(docs, id) {
      forall c | c in chunks ensures HasSomeWord(alnum, c) {
        var id: nat :| id < |chunks| && chunks[id] == c;
        assert id in Ids(docs) && HasToken(docs, id);
      }
    }
    if forall c :: c in chunks ==> HasSomeWord(alnum, c) {
      forall id | id in Ids(docs) ensures HasToken(docs, id) { assert chunks[id] in chunks; }
    }
    forall c | c in chunks ensures exists id :: id in Ids(docs) && chunks[id] == c {
      var id: nat :| id < |chunks| && chunks[id] == c;
      assert id in Ids(docs);
    }
  }

  lemma {:induction false} ChunkHasToken(alnum: Alnum, chunks: seq<Chunk>, id: nat)
    requires id < |chunks|
    ensures HasToken(ChunkDocs(alnum, chunks), id) <==> HasSomeWord(alnum, chunks[id])
  {
    forall t ensures id in Posted(ChunkDocs(alnum, chunks), t) <==> HasWord(alnum, chunks[id], t) {
      InsertedWords(alnum, chunks, t, id);
    }
  }

  lemma {:induction false} IdsOfChunkDocs(alnum: Alnum, chunks: seq<Chunk>)
    ensures forall id: nat :: id in Ids(ChunkDocs(alnum, chunks)) <==> id < |chunks|
  {
    if chunks != [] {
      var i, c := |chunks| - 1, chunks[|chunks| - 1];
      IdsOfChunkDocs(alnum, chunks[..i]);
      IdsThreeMore(ChunkDocs(alnum, chunks[..i]), i, Tokenize(alnum, c.text), Tokenize(alnum, c.commandName),
        Tokenize(alnum, c.sectionName));
    }
  }

  lemma {:induction false} IdsThreeMore(docs: seq<Doc>, i: nat, a: seq<string>, b: seq<string>, c: seq<string>)
    ensures Ids(docs + [Doc(i, a), Doc(i, b), Doc(i, c)]) == Ids(docs) + {i}
  {
    var d1 := docs + [Doc(i, a)];
    var d2 := d1 + [Doc(i, b)];
    PostedOneMore(docs, Doc(i, a));
    PostedOneMore(d1, Doc(i, b));
    PostedOneMore(d2, Doc(i, c));
    assert docs + [Doc(i, a), Doc(i, b), Doc(i, c)] == d2 + [Doc(i, c)];
  }

  // ---------- the writer ----------

  method CountUses(alnum: Alnum, chunks: seq<Chunk>)
      returns (lexicon: map<string, nat>, postings: map<string, seq<nat>>)
    ensures Counts(Uses(alnum, chunks), lexicon, postings)
  {
    lexicon, postings := map[], map[];
    for i := 0 to |chunks|
      invariant Counts(Uses(alnum, chunks[..i]), lexicon, postings)
    {
      assert chunks[..i + 1][..i] == chunks[..i] && chunks[..i + 1][i] == chunks[i];
      lexicon, postings :=
        CountTokens(Uses(alnum, chunks[..i]), Tokenize(alnum, JoinedText(chunks[i])), i, lexicon, postings);
    }
    assert chunks[..|chunks|] == chunks;
  }

  ghost predicate Counts(uses: seq<Use>, lexicon: map<string, nat>, postings: map<string, seq<nat>>) {
    && lexicon.Keys == postings.Keys == Words(uses)
    && (forall t :: IdsOf(uses, t) == ListOf(postings, t) && CountOf(lexicon, t) == |ListOf(postings, t)|)
  }

  function ListOf(postings: map<string, seq<nat>>, t: string): seq<nat> { if t in postings then postings[t] else [] }

  function CountOf(lexicon: map<string, nat>, t: string): nat { if t in lexicon then lexicon[t] else 0 }

  method CountTokens(ghost uses: seq<Use>, tokens: seq<string>, id: nat, lexicon0: map<string, nat>,
      postings0: map<string, seq<nat>>)
    returns (lexicon: map<string, nat>, postings: map<string, seq<nat>>)
    requires Counts(uses, lexicon0, postings0)
    ensures Counts(uses + UsesOf(tokens, id), lexicon, postings)
  {
    lexicon, postings := lexicon0, postings0;
    assert uses + UsesOf(tokens[..0], id) == uses;
    for k := 0 to |tokens|
      invariant Counts(uses + UsesOf(tokens[..k], id), lexicon, postings)
    {
      var t := tokens[k];
      assert uses + UsesOf(tokens[..k + 1], id) == uses + UsesOf(tokens[..k], id) + [Use(t, id)];
      CountsNext(uses + UsesOf(tokens[..k], id), t, id, lexicon, postings);
      lexicon := lexicon[t := CountOf(lexicon, t) + 1];
      postings := postings[t := ListOf(postings, t) + [id]];
    }
    assert tokens[..|tokens|] == tokens;
  }

  lemma {:induction false} CountsNext(uses: seq<Use>, t: string, id: nat, lexicon: map<string, nat>,
      postings: map<string, seq<nat>>)
    requires Counts(uses, lexicon, postings)
    ensures Counts(uses + [Use(t, id)], lexicon[t := CountOf(lexicon, t) + 1],
                   postings[t := ListOf(postings, t) + [id]])
  {
    var lexicon', postings' := lexicon[t := CountOf(lexicon, t) + 1], postings[t := ListOf(postings, t) + [id]];
    WordsNext(uses, t, id);
    forall u ensures IdsOf(uses + [Use(t, id)], u) == ListOf(postings', u) &&
      CountOf(lexicon', u) == |ListOf(postings', u)| {
      assert IdsOf(uses, u) == ListOf(postings, u) && IdsOf(uses, t) == ListOf(postings, t);
      CountNext(uses, t, id, lexicon, postings, u);
    }
  }

  lemma {:induction false} CountNext(uses: seq<Use>, t: string, id: nat, lexicon: map<string, nat>,
      postings: map<string, seq<nat>>, u: string)
    requires IdsOf(uses, u) == ListOf(postings, u) && CountOf(lexicon, u) == |ListOf(postings, u)|
    requires IdsOf(uses, t) == ListOf(postings, t) && CountOf(lexicon, t) == |ListOf(postings, t)|
    ensures var lexicon', postings' := lexicon[t := CountOf(lexicon, t) + 1], postings[t := ListOf(postings, t) + [id]];
      IdsOf(uses + [Use(t, id)], u) == ListOf(postings', u) && CountOf(lexicon', u) == |ListOf(postings', u)|
  {
    IdsNext(uses, t, id, u);
  }

  lemma {:induction false} WordsNext(uses: seq<Use>, t: string, id: nat)
    ensures Words(uses + [Use(t, id)]) == Words(uses) + {t}
  {
    var more := uses + [Use(t, id)];
    assert more[|uses|] == Use(t, id);
    forall u | u in Words(uses) ensures u in Words(more) {
      var x :| x in uses && x.token == u;
      assert x in more;
    }
  }

  lemma {:induction false} IdsNext(uses: seq<Use>, t: string, id: nat, u: string)
    ensures IdsOf(uses + [Use(t, id)], u) == IdsOf(uses, u) + if u == t then [id] else []
  {
    var more := uses + [Use(t, id)];
    assert more[..|more| - 1] == uses;
  }

  /** Both files, or an error when a number does not fit its field. */
  method WriteLexicalBins(alnum: Alnum, chunks: seq<Chunk>) returns (r: Result<Files, FileError>)
    ensures r == FilesOf(RowsOf(Uses(alnum, chunks)))
  {
    var lexicon, postings := CountUses(alnum, chunks);
    var tokens := SortedKeys(lexicon.Keys);
    r := WriteRows(lexicon, postings, tokens, RowsOf(Uses(alnum, chunks)));
  }

  method WriteRows(lexicon: map<string, nat>, postings: map<string, seq<nat>>, tokens: seq<string>,
      ghost rows: seq<Row>)
    returns (r: Result<Files, FileError>)
    requires |rows| == |tokens| == |lexicon| == |postings|
    requires forall k :: 0 <= k < |tokens| ==>
      tokens[k] in lexicon && tokens[k] in postings && lexicon[tokens[k]] == |postings[tokens[k]]|
    requires forall k :: 0 <= k < |tokens| ==> rows[k] == Row(tokens[k], postings[tokens[k]])
    ensures r == FilesOf(rows)
  {
    var lex, post := Header(LEXICON_MAGIC, |lexicon|), Header(POSTINGS_MAGIC, |postings|);
    assert rows[0..] == rows;
    for i := 0 to |tokens|
      invariant Written(rows, i, lex, post)
    {
      var row := Row(tokens[i], postings[tokens[i]]);
      var written := WriteRow(row, lexicon[tokens[i]], |post|);
      WrittenNext(rows, i, i + 1, lex, post);
      if written.Err? {
        return Err(Overflow);
      }
      lex, post := lex + written.value.lexicon, post + written.value.postings;
    }
    assert rows[|rows|..] == [] && post + [] == post && lex + [] == lex;
    r := Ok(Files(lex, post));
  }

  /** The files after the first `i` rows. */
  ghost predicate Written(rows: seq<Row>, i: nat, lex: Bytes, post: Bytes) {
    && i <= |rows|
    && RowsFit(rows, 12) == RowsFit(rows[i..], |post|)
    && post + AllPostings(rows[i..]) == Header(POSTINGS_MAGIC, |rows|) + AllPostings(rows)
    && (RowsFit(rows, 12) ==>
      lex + AllLexicon(rows[i..], |post|) == Header(LEXICON_MAGIC, |rows|) + AllLexicon(rows, 12))
  }

  lemma {:induction false} WrittenNext(rows: seq<Row>, i: nat, next: nat, lex: Bytes, post: Bytes)
    requires i < |rows| && next == i + 1 && Written(rows, i, lex, post)
    ensures if RowFits(rows[i], |post|)
      then Written(rows, next, lex + LexiconBytes(rows[i], |post|), post + PostingBytes(rows[i].ids))
      else !RowsFit(rows, 12)
  {
    var rest := rows[i..];
    assert rest[0] == rows[i] && rest[1..] == rows[next..];
    RowMoves(rest, lex, post, |post|, post + PostingBytes(rest[0].ids));
  }

  /** The first of the rows left goes from what is to be written to what is. */
  lemma {:induction false} RowMoves(rest: seq<Row>, lex: Bytes, post: Bytes, off: nat, on: Bytes)
    requires rest != [] && off == |post| && on == post + PostingBytes(rest[0].ids)
    ensures RowsFit(rest, off) == (RowFits(rest[0], off) && RowsFit(rest[1..], |on|))
    ensures post + AllPostings(rest) == on + AllPostings(rest[1..])
    ensures RowsFit(rest, off) ==>
      lex + AllLexicon(rest, off) == (lex + LexiconBytes(rest[0], off)) + AllLexicon(rest[1..], |on|)
  {
    PostingsMove(rest, post);
    if RowsFit(rest, off) {
      LexiconMove(rest, off, |on|);
      Append(lex, LexiconBytes(rest[0], off), AllLexicon(rest[1..], |on|));
    }
  }

  lemma {:induction false} Append(a: Bytes, b: Bytes, c: Bytes)
    ensures a + (b + c) == (a + b) + c
  {
  }

  /** A token's record and its postings, which start at `off`. */
  method WriteRow(row: Row, df: nat, off: nat) returns (r: Result<Files, FileError>)
    requires df == |row.ids|
    ensures r == if RowFits(row, off) then Ok(Files(LexiconBytes(row, off), PostingBytes(row.ids))) else Err(Overflow)
  {
    var ids := PutIds(row.ids);
    if ids == None || off >= U64_LIMIT {
      return Err(Overflow);
    }
    var posting := U32(|row.ids|) + ids.value;
    var token := Encode(row.token);
    if |posting| >= U32_LIMIT || |token| >= U32_LIMIT {
      return Err(Overflow);
    }
    var cut := if df < U32_LIMIT then df else U32_LIMIT - 1;
    r := Ok(Files(U32(|token|) + token + (U32(cut) + U64(off) + U32(|posting|)), posting));
  }

  method PutIds(ids: seq<nat>) returns (r: Option<Bytes>)
    ensures r == if forall k :: 0 <= k < |ids| ==> ids[k] < U32_LIMIT then Some(IdBytes(ids)) else None
  {
    var b := [];
    assert ids[0..] == ids;
    for i := 0 to |ids|
      invariant forall k :: 0 <= k < i ==> ids[k] < U32_LIMIT
      invariant b + IdBytes(ids[i..]) == IdBytes(ids)
    {
      assert ids[i..][0] == ids[i] && ids[i..][1..] == ids[i + 1..];
      if ids[i] >= U32_LIMIT {
        return None;
      }
      b := b + U32(ids[i]);
    }
    assert ids[|ids|..] == [] && b + [] == b;
    r := Some(b);
  }

  // ---------- the reader ----------

  method ReadLexicalPostings(lexicon: Bytes, postings: Bytes) returns (r: Result<map<string, set<nat>>, FileError>)
    ensures r == PostingsOf(lexicon, postings)
  {
    if |lexicon| < 12 || |postings| < 12 {
      return Err(TooShort);
    }
    if !(LEXICON_MAGIC <= lexicon) || !(POSTINGS_MAGIC <= postings) {
      return Err(BadMagic);
    }
    var cursor := new Cursor(lexicon, 8);
    var other := new Cursor(postings, 8);
    var lexCount := cursor.ReadU32();
    var postingsCount := other.ReadU32();
    assert lexicon[8..][..4] == lexicon[8..12] && lexicon[8..][4..] == lexicon[12..];
    assert postings[8..][..4] == postings[8..12];
    var found := ReadRows(cursor, lexCount.value, postings);
    if found.Err? {
      return found;
    }
    if |found.value| != postingsCount.value {
      return Err(CountMismatch);
    }
    r := found;
  }

  method ReadRows(cursor: Cursor, count: nat, postings: Bytes) returns (r: Result<map<string, set<nat>>, FileError>)
    requires cursor.Valid()
    modifies cursor
    ensures r == TakeRows(RowsIn(postings), count, old(cursor.Rest()), map[])
  {
    ghost var all := TakeRows(RowsIn(postings), count, cursor.Rest(), map[]);
    var found: map<string, set<nat>> := map[];
    ghost var left := count;
    for i := 0 to count
      invariant left == count - i && cursor.Valid()
      invariant TakeRows(RowsIn(postings), left, cursor.Rest(), found) == all
    {
      ghost var b := cursor.Rest();
      var row := ReadRow(cursor, postings);
      if row.Err? {
        assert all == Err(row.error);
        return Err(row.error);
      }
      ghost var next := left - 1;
      RowsStep(RowsIn(postings), left, next, b, found, row.value.0, row.value.1, cursor.Rest());
      left := next;
      found := found[row.value.0 := row.value.1];
    }
    r := Ok(found);
  }

  method ReadRow(cursor: Cursor, postings: Bytes) returns (r: Result<(string, set<nat>), FileError>)
    requires cursor.Valid()
    modifies cursor
    ensures cursor.Valid()
    ensures match RowsIn(postings)(old(cursor.Rest()))
      case Ok((row, rest)) => r == Ok(row) && cursor.Rest() == rest
      case Err(e) => r == Err(e)
  {
    var entry := ReadEntry(cursor);
    if entry.Err? {
      return Err(entry.error);
    }
    var ids := ReadPosting(postings, entry.value.off, entry.value.length);
    r := match ids case Ok(ids) => Ok((entry.value.token, ids)) case Err(e) => Err(e);
  }

  method ReadEntry(cursor: Cursor) returns (r: Result<Entry, FileError>)
    requires cursor.Valid()
    modifies cursor
    ensures cursor.Valid()
    ensures match TakeEntry(old(cursor.Rest()))
      case Ok((entry, rest)) => r == Ok(entry) && cursor.Rest() == rest
      case Err(e) => r == Err(e)
  {
    var length := cursor.ReadU32();
    if length == None {
      return Err(Underflow);
    }
    var token := cursor.ReadBytes(length.value);
    if token == None {
      return Err(Truncated);
    }
    var text := Decode(token.value);
    if text == None {
      return Err(BadText);
    }
    r := ReadNumbers(cursor, text.value);
  }

  method ReadNumbers(cursor: Cursor, token: string) returns (r: Result<Entry, FileError>)
    requires cursor.Valid()
    modifies cursor
    ensures cursor.Valid()
    ensures match TakeNumbers(token, old(cursor.Rest()))
      case Ok((entry, rest)) => r == Ok(entry) && cursor.Rest() == rest
      case Err(e) => r == Err(e)
  {
    var df := cursor.ReadU32();
    if df == None {
      return Err(Underflow);
    }
    var off := cursor.ReadU64();
    if off == None {
      return Err(Underflow);
    }
    var length := cursor.ReadU32();
    if length == None {
      return Err(Underflow);
    }
    r := Ok(Entry(token, off.value, length.value));
  }

  method ReadPosting(postings: Bytes, off: nat, length: nat) returns (r: Result<set<nat>, FileError>)
    ensures r == PostingAt(postings, off, length)
  {
    if off + length > |postings| {
      return Err(Truncated);
    }
    var cursor := new Cursor(postings, off);
    var count := cursor.ReadU32();
    if count == None {
      return Err(Underflow);
    }
    if 4 + 4 * count.value > length {
      return Err(Truncated);
    }
    ghost var all := TakeIds(count.value, cursor.Rest());
    var ids: set<nat> := {};
    assert forall more: set<nat> :: {} + more == more;
    for i := 0 to count.value
      invariant cursor.Valid() && fresh(cursor)
      invariant match TakeIds(count.value - i, cursor.Rest())
        case Ok(more) => all == Ok(ids + more)
        case Err(e) => all == Err(e)
    {
      var id := cursor.ReadU32();
      if id == None {
        return Err(Underflow);
      }
      var row: nat := id.value;
      assert forall more: set<nat> :: (ids + {row}) + more == ids + ({row} + more);
      ids := ids + {row};
    }
    r := Ok(ids);
  }
}

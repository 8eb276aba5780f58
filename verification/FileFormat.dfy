/** Where the numbers of the index files stand, byte by byte (crates/termlm-indexer/src/store.rs). */
module FileFormat {
  import opened Wrappers
  import opened Text
  import opened Utf8
  import opened Binary
  import opened Chunks
  import opened Codecs
  import EntriesFile
  import opened ChunksFile
  import opened Ordering
  import opened Lexical
  import LexiconFile

  // ---------- numbers ----------

  /** The number that four bytes spell, the low one first. */
  function Four(b: Bytes): nat
    requires |b| == 4
  {
    (b[0] as int) + 0x100 * (b[1] as int) + 0x1_0000 * (b[2] as int) + 0x100_0000 * (b[3] as int)
  }

  /** Eight bytes are two times four. */
  function Eight(b: Bytes): nat
    requires |b| == 8
  {
    Four(b[..4]) + 0x1_0000_0000 * Four(b[4..])
  }

  lemma {:induction false} FourBytes(n: nat)
    requires n < U32_LIMIT
    ensures Four(U32(n)) == n
  {
    LowFour(n);
    FourOfAny(n);
  }

  lemma {:induction false} LowFour(n: nat)
    requires n < U32_LIMIT
    ensures n % U32_LIMIT == n && U32(n) == LittleEndian(n, 4)
  {
  }

  lemma {:induction false} FourOfAny(n: nat)
    ensures Four(LittleEndian(n, 4)) == n % U32_LIMIT
  {
    BytesOfFour(n);
    DigitsOfFour(n);
  }

  lemma {:induction false} LowDigit(n: nat)
    ensures n == n % 256 + 256 * (n / 256)
  {
  }

  lemma {:induction false} DigitsOfFour(n: nat)
    ensures n % 256 + 0x100 * (n / 256 % 256) + 0x1_0000 * (n / 256 / 256 % 256) +
      0x100_0000 * (n / 256 / 256 / 256 % 256) == n % U32_LIMIT
  {
    var n1, n2, n3 := n / 256, n / 256 / 256, n / 256 / 256 / 256;
    LowDigit(n);
    LowDigit(n1);
    LowDigit(n2);
    LowDigit(n3);
    var low := n % 256 + 0x100 * (n1 % 256) + 0x1_0000 * (n2 % 256) + 0x100_0000 * (n3 % 256);
    assert n == low + U32_LIMIT * (n3 / 256);
    CutOff(n, low, n3 / 256);
  }

  lemma {:induction false} CutOff(n: nat, low: nat, high: nat)
    requires n == low + U32_LIMIT * high && low < U32_LIMIT
    ensures n % U32_LIMIT == low
  {
  }

  lemma {:induction false} BytesOfFour(n: nat)
    ensures LittleEndian(n, 4) == [n % 256, n / 256 % 256, n / 256 / 256 % 256, n / 256 / 256 / 256 % 256]
  {
    var n1 := n / 256;
    var n2 := n1 / 256;
    var n3 := n2 / 256;
    assert LittleEndian(n3 / 256, 0) == [];
    assert LittleEndian(n3, 1) == [n3 % 256] + [];
    assert LittleEndian(n2, 2) == [n2 % 256] + LittleEndian(n3, 1);
    assert LittleEndian(n1, 3) == [n1 % 256] + LittleEndian(n2, 2);
  }

  lemma {:induction false} HighFour(n: nat)
    ensures LittleEndian(n, 8) == LittleEndian(n, 4) + LittleEndian(n / U32_LIMIT, 4)
  {
    var n1 := n / 256;
    var n2 := n1 / 256;
    var n3 := n2 / 256;
    var n4 := n3 / 256;
    assert LittleEndian(n3, 5) == [n3 % 256] + LittleEndian(n4, 4);
    assert LittleEndian(n2, 6) == [n2 % 256] + LittleEndian(n3, 5);
    assert LittleEndian(n1, 7) == [n1 % 256] + LittleEndian(n2, 6);
    assert LittleEndian(n, 8) == [n % 256] + LittleEndian(n1, 7);
    BytesOfFour(n);
    assert n4 == n / U32_LIMIT;
  }

  lemma {:induction false} EightBytes(n: u64)
    ensures Eight(U64(n)) == n
  {
    var high := n / U32_LIMIT;
    HighFour(n);
    FourOfAny(n);
    FourOfAny(high);
    FourApart(LittleEndian(n, 4), LittleEndian(high, 4));
    assert n == n % U32_LIMIT + U32_LIMIT * high && high < U32_LIMIT;
  }

  lemma {:induction false} FourApart(a: Bytes, b: Bytes)
    requires |a| == 4 && |b| == 4
    ensures Eight(a + b) == Four(a) + 0x1_0000_0000 * Four(b)
  {
    assert (a + b)[..4] == a && (a + b)[4..] == b;
  }

  /** A negative number is written as its distance from the power above. */
  lemma {:induction false} SignedBytes(n: i64)
    ensures Eight(I64(n)) == if n >= 0 then n else U64_LIMIT + n
  {
    EightBytes(if n < 0 then n + U64_LIMIT else n);
  }

  // ---------- the codes of the extraction methods ----------

  /** The code of every method; any other has none. */
  lemma {:induction false} MethodCodes(name: string)
    ensures MethodCode("man") == 1 && MethodCode("--help") == 2 && MethodCode("-h") == 3 && MethodCode("stub") == 4
    ensures MethodCode("heuristic") == 5 && MethodCode("builtin") == 6 && MethodCode("alias") == 7
    ensures MethodCode("function") == 8
    ensures name !in ["man", "--help", "-h", "stub", "heuristic", "builtin", "alias", "function"] ==>
      MethodCode(name) == 0 && MethodName(MethodCode(name)) == "unknown"
  {
    CodeRoundTrip(1);
    CodeRoundTrip(2);
    CodeRoundTrip(3);
    CodeRoundTrip(4);
    CodeRoundTrip(5);
    CodeRoundTrip(6);
    CodeRoundTrip(7);
    CodeRoundTrip(8);
  }

  /** The byte stands for the hexadecimal digit of this value, in small or capital letters. */
  predicate IsDigitFor(b: byte, value: nat) {
    && value < 16
    && if value < 10 then b == 48 + value else b == 97 + (value - 10) || b == 65 + (value - 10)
  }

  /** Two digits are sixteen times the first and the second; a plus sign and a digit are the digit; all else is zero. */
  lemma {:induction false} HexPairMeans(a: byte, b: byte, x: nat, y: nat)
    ensures IsDigitFor(a, x) && IsDigitFor(b, y) ==> HexPair(a, b) == 16 * x + y
    ensures a == '+' as int && IsDigitFor(b, y) ==> HexPair(a, b) == y
    ensures (forall v :: !IsDigitFor(b, v)) || (a != '+' as int && forall v :: !IsDigitFor(a, v)) ==> HexPair(a, b) == 0
  {
    if HexDigit(a).Some? { assert IsDigitFor(a, HexDigit(a).value); }
    if HexDigit(b).Some? { assert IsDigitFor(b, HexDigit(b).value); }
  }

  // ---------- names ----------

  /** A slash or a dot at the end does not count, and after two dots there is no name but the path. */
  lemma {:induction false} NameOfEnding(path: string)
    requires path != ""
    ensures FileName(path + "/") == FileName(path) && FileName(path + "/.") == FileName(path)
    ensures CommandName(path + "/..") == path + "/.."
  {
    var dir := path + "/";
    SegmentOfJoined(dir, "");
    SegmentOfJoined(dir, ".");
    SegmentOfJoined(dir, "..");
    assert dir + "" == dir && dir[|dir|..] == "" && dir[..|dir| - 1] == path;
    assert dir + "." == path + "/." && (dir + ".")[|dir|..] == "." && (dir + ".")[..|dir| - 1] == path;
    assert dir + ".." == path + "/.." && (dir + "..")[|dir|..] == "..";
  }

  /** The first chunk of each section name, in the order of the names. */
  ghost predicate AreFirstUses(names: seq<string>, chunks: seq<Chunk>, at: seq<nat>) {
    && |at| == |names|
    && (forall k :: 0 <= k < |at| ==> IsFirstUse(names[k], chunks, at[k]))
    && (forall j, k :: 0 <= j < k < |at| ==> at[j] < at[k])
  }

  ghost predicate IsFirstUse(name: string, chunks: seq<Chunk>, i: nat) {
    i < |chunks| && chunks[i].sectionName == name && forall j :: 0 <= j < i ==> chunks[j].sectionName != name
  }

  /** The section names are numbered by the first chunk that has each. */
  lemma {:induction false} SectionsByFirstUse(chunks: seq<Chunk>) returns (at: seq<nat>)
    ensures AreFirstUses(SectionNames(chunks), chunks, at)
  {
    if chunks == [] {
      at := [];
    } else {
      var n := |chunks| - 1;
      var name, before := chunks[n].sectionName, SectionNames(chunks[..n]);
      at := SectionsByFirstUse(chunks[..n]);
      FirstUsesStay(before, chunks, n, at);
      if name !in before {
        NewName(name, chunks, n, before);
        at := at + [n];
      }
    }
  }

  lemma {:induction false} FirstUsesStay(names: seq<string>, chunks: seq<Chunk>, n: nat, at: seq<nat>)
    requires n < |chunks| && AreFirstUses(names, chunks[..n], at)
    ensures AreFirstUses(names, chunks, at) && forall k :: 0 <= k < |at| ==> at[k] < n
  {
    forall k | 0 <= k < |at| ensures IsFirstUse(names[k], chunks, at[k]) {
      assert IsFirstUse(names[k], chunks[..n], at[k]);
      forall j | 0 <= j < at[k] ensures chunks[j].sectionName != names[k] { assert chunks[..n][j] == chunks[j]; }
    }
  }

  lemma {:induction false} NewName(name: string, chunks: seq<Chunk>, n: nat, before: seq<string>)
    requires n < |chunks| && chunks[n].sectionName == name && name !in before && before == SectionNames(chunks[..n])
    ensures IsFirstUse(name, chunks, n)
  {
    forall i | 0 <= i < n ensures chunks[i].sectionName != name { assert chunks[i] in chunks[..n]; }
  }

  // ---------- a chunk record ----------

  function TwosComplement(n: i64): nat { if n >= 0 then n else U64_LIMIT + n }

  /** The first 20 bytes of a record: the entry, the section, and where the text is. */
  ghost predicate IsPlace(b: Bytes, p: Place) {
    && |b| == 20 && Four(b[0..4]) == p.entry && Four(b[4..8]) == p.section
    && Eight(b[8..16]) == p.off && Four(b[16..20]) == p.length
  }

  /** The next 12: number and count of chunks, one for a tombstone, the method, two bytes of zero. */
  ghost predicate IsRank(b: Bytes, r: Rank) {
    && |b| == 12 && Four(b[0..4]) == r.index && Four(b[4..8]) == r.total
    && b[8] == (if r.tombstone then 1 else 0) && b[9] == r.code && b[10] == b[11] == 0
  }

  /** The last 40: seconds and hash. */
  ghost predicate IsStamp(b: Bytes, s: Stamp) {
    |b| == 40 && Eight(b[0..8]) == TwosComplement(s.secs) && b[8..] == s.hash
  }

  lemma {:induction false} PlaceIsLaidOut(p: Place)
    ensures IsPlace(PlaceBytes(p), p)
  {
    var b := PlaceBytes(p);
    assert b[0..4] == U32(p.entry) && b[4..8] == U32(p.section) && b[8..16] == U64(p.off) && b[16..20] == U32(p.length);
    FourBytes(p.entry);
    FourBytes(p.section);
    EightBytes(p.off);
    FourBytes(p.length);
  }

  lemma {:induction false} RankIsLaidOut(r: Rank)
    ensures IsRank(RankBytes(r), r)
  {
    var b := RankBytes(r);
    assert b[0..4] == U32(r.index) && b[4..8] == U32(r.total);
    FourBytes(r.index);
    FourBytes(r.total);
  }

  lemma {:induction false} StampIsLaidOut(s: Stamp)
    ensures IsStamp(StampBytes(s), s)
  {
    var b := StampBytes(s);
    assert b[0..8] == I64(s.secs) && b[8..] == s.hash;
    SignedBytes(s.secs);
  }

  /** The 72 bytes of a record. */
  lemma {:induction false} RecordIsLaidOut(r: Record)
    ensures var b := RecordBytes()(r);
      |b| == 72 && IsPlace(b[0..20], r.place) && IsRank(b[20..32], r.rank) && IsStamp(b[32..72], r.stamp)
  {
    var b := RecordBytes()(r);
    assert b[0..20] == PlaceBytes(r.place) && b[20..32] == RankBytes(r.rank) && b[32..72] == StampBytes(r.stamp);
    PlaceIsLaidOut(r.place);
    RankIsLaidOut(r.rank);
    StampIsLaidOut(r.stamp);
  }

  // ---------- an entry ----------

  /** Where the path is. */
  ghost predicate IsKey(b: Bytes, span: EntriesFile.Span) {
    |b| == 12 && Eight(b[0..8]) == span.off && Four(b[8..12]) == span.length
  }

  /** What the file system says of it. */
  ghost predicate IsMeta(b: Bytes, e: EntriesFile.Entry) {
    && |b| == 24 && Eight(b[0..8]) == TwosComplement(e.mtime)
    && Eight(b[8..16]) == e.size && Eight(b[16..24]) == e.inode
  }

  /** Where its texts are, and which chunks are its. */
  ghost predicate IsStats(b: Bytes, s: EntriesFile.Stats) {
    && |b| == 24 && Eight(b[0..8]) == s.off && Eight(b[8..16]) == s.length
    && Four(b[16..20]) == s.first && Four(b[20..24]) == s.count
  }

  lemma {:induction false} KeyIsLaidOut(span: EntriesFile.Span)
    requires EntriesFile.SpanFits(span)
    ensures IsKey(EntriesFile.KeyBytes(span), span)
  {
    var b := EntriesFile.KeyBytes(span);
    TwoParts(U64(span.off), U32(span.length));
    assert b == U64(span.off) + U32(span.length);
    EightBytes(span.off);
    FourBytes(span.length);
  }

  lemma {:induction false} MetaIsLaidOut(e: EntriesFile.Entry)
    ensures IsMeta(EntriesFile.MetaBytes(e), e)
  {
    var b := EntriesFile.MetaBytes(e);
    assert b[0..8] == I64(e.mtime) && b[8..16] == U64(e.size) && b[16..24] == U64(e.inode);
    SignedBytes(e.mtime);
    EightBytes(e.size);
    EightBytes(e.inode);
  }

  lemma {:induction false} StatsStand(a: Bytes, b: Bytes, c: Bytes, d: Bytes, s: EntriesFile.Stats)
    requires |a| == 8 && |b| == 8 && |c| == 4 && |d| == 4
    requires Eight(a) == s.off && Eight(b) == s.length && Four(c) == s.first && Four(d) == s.count
    ensures IsStats(a + b + c + d, s)
  {
    var all := a + b + c + d;
    assert all[0..8] == a && all[8..16] == b && all[16..20] == c && all[20..24] == d;
  }

  lemma {:induction false} StatsAreLaidOut(s: EntriesFile.Stats)
    requires s.off < U64_LIMIT && s.length < U64_LIMIT && s.first < U32_LIMIT && s.count < U32_LIMIT
    ensures IsStats(EntriesFile.StatsBytes(s), s)
  {
    FourBytes(s.first);
    FourBytes(s.count);
    NothingIsCut(s.off);
    NothingIsCut(s.length);
    StatsStand(U64(s.off % U64_LIMIT), U64(s.length % U64_LIMIT), U32(s.first), U32(s.count), s);
  }

  lemma {:induction false} NothingIsCut(n: u64)
    ensures n % U64_LIMIT == n && Eight(U64(n % U64_LIMIT)) == n
  {
    EightBytes(n);
  }

  /** The 60 bytes of an entry. */
  lemma {:induction false} EntryIsLaidOut(span: EntriesFile.Span, e: EntriesFile.Entry, s: EntriesFile.Stats)
    requires EntriesFile.SpanFits(span)
    requires s.off < U64_LIMIT && s.length < U64_LIMIT && s.first < U32_LIMIT && s.count < U32_LIMIT
    ensures var b := EntriesFile.EntryBytes(span, e, s);
      |b| == 60 && IsKey(b[0..12], span) && IsMeta(b[12..36], e) && IsStats(b[36..60], s)
  {
    var b := EntriesFile.EntryBytes(span, e, s);
    assert b[0..12] == EntriesFile.KeyBytes(span) && b[12..36] == EntriesFile.MetaBytes(e);
    assert b[36..60] == EntriesFile.StatsBytes(s);
    KeyIsLaidOut(span);
    MetaIsLaidOut(e);
    StatsAreLaidOut(s);
  }

  ghost predicate StatsFit(s: EntriesFile.Stats) {
    s.off < U64_LIMIT && s.length < U64_LIMIT && s.first < U32_LIMIT && s.count < U32_LIMIT
  }

  lemma {:induction false} AllStatsFit(chunks: seq<Chunk>)
    ensures forall path :: path in EntriesFile.StatsOf(chunks) ==> StatsFit(EntriesFile.StatsOf(chunks)[path])
  {
    if chunks != [] { AllStatsFit(chunks[..|chunks| - 1]); }
  }

  /** What an entry says of its chunks: what they come to, or nothing when it has none. */
  ghost predicate TellsOfChunks(b: Bytes, chunks: seq<Chunk>, path: string) {
    var stats := EntriesFile.StatsOf(chunks);
    if path in stats then IsStats(b, stats[path]) else IsStats(b, EntriesFile.Stats(0, 0, 0, 0))
  }

  /** What the file holds for an entry: where its path is in the paths file, and what its chunks come to. */
  ghost predicate EntryStandsAt(b: Bytes, e: EntriesFile.Entry, chunks: seq<Chunk>, blob: Bytes) {
    && |b| == 60 && IsMeta(b[12..36], e) && TellsOfChunks(b[36..60], chunks, e.path)
    && Eight(b[0..8]) + Four(b[8..12]) <= |blob|
    && blob[Eight(b[0..8])..Eight(b[0..8]) + Four(b[8..12])] == Encode(e.path)
  }

  /** Every entry of a file that was written. */
  lemma {:induction false} EntryStands(entries: seq<EntriesFile.Entry>, chunks: seq<Chunk>, blob: Bytes, file: Bytes,
      i: nat, at: nat)
    requires EntriesFile.PathsBin(entries) == Ok(blob) && EntriesFile.EntriesBin(entries, chunks) == Ok(file)
    requires i < |entries| && at == 12 + i * 60
    ensures at + 60 <= |file| && EntryStandsAt(file[at..at + 60], entries[i], chunks, blob)
  {
    var c := EntriesFile.CatalogOf(entries).value;
    EntriesFile.CatalogFits(entries, c);
    EntriesFile.CatalogHolds(entries, c, i);
    var record := EntriesFile.RecordOf(c, EntriesFile.StatsOf(chunks));
    HeaderRead(EntriesFile.ENTRIES_MAGIC, |entries|, Records(record, entries));
    EntriesFile.RecordHere(file, record, entries, i, at);
    var span := EntriesFile.SpanOf(c, entries[i].path);
    AllStatsFit(chunks);
    RecordTells(blob, entries[i], chunks, file[at..at + 60], span,
      EntriesFile.StatsAt(EntriesFile.StatsOf(chunks), entries[i].path));
  }

  lemma {:induction false} RecordTells(blob: Bytes, e: EntriesFile.Entry, chunks: seq<Chunk>, b: Bytes,
      span: EntriesFile.Span, s: EntriesFile.Stats)
    requires EntriesFile.SpanFits(span) && StatsFit(s) && b == EntriesFile.EntryBytes(span, e, s)
    requires s == EntriesFile.StatsAt(EntriesFile.StatsOf(chunks), e.path)
    requires span.off + span.length <= |blob| && blob[span.off..span.off + span.length] == Encode(e.path)
    ensures EntryStandsAt(b, e, chunks, blob)
  {
    EntryIsLaidOut(span, e, s);
    StatsTell(b[36..60], chunks, e.path, s);
    KeyStands(b, e, chunks, blob, span);
  }

  lemma {:induction false} StatsTell(b: Bytes, chunks: seq<Chunk>, path: string, s: EntriesFile.Stats)
    requires IsStats(b, s) && s == EntriesFile.StatsAt(EntriesFile.StatsOf(chunks), path)
    ensures TellsOfChunks(b, chunks, path)
  {
  }

  lemma {:induction false} KeyStands(b: Bytes, e: EntriesFile.Entry, chunks: seq<Chunk>, blob: Bytes,
      span: EntriesFile.Span)
    requires |b| == 60 && IsKey(b[0..12], span) && IsMeta(b[12..36], e) && TellsOfChunks(b[36..60], chunks, e.path)
    requires span.off + span.length <= |blob| && blob[span.off..span.off + span.length] == Encode(e.path)
    ensures EntryStandsAt(b, e, chunks, blob)
  {
    KeyTells(b, span);
  }

  lemma {:induction false} KeyTells(b: Bytes, span: EntriesFile.Span)
    requires |b| == 60 && IsKey(b[0..12], span)
    ensures Eight(b[0..8]) == span.off && Four(b[8..12]) == span.length
  {
    assert b[0..12][0..8] == b[0..8] && b[0..12][8..12] == b[8..12];
  }

  // ---------- a token ----------

  /** The number of uses of a token, and where its postings are. */
  ghost predicate IsNumbers(b: Bytes, uses: nat, off: nat, length: nat) {
    |b| == 16 && Four(b[0..4]) == uses && Eight(b[4..12]) == off && Four(b[12..16]) == length
  }

  lemma {:induction false} NumbersAreLaidOut(uses: nat, off: u64, length: nat)
    requires uses < U32_LIMIT && length < U32_LIMIT
    ensures IsNumbers(LexiconFile.NumberBytes(uses, off, length), uses, off, length)
  {
    var b := LexiconFile.NumberBytes(uses, off, length);
    assert b[0..4] == U32(uses) && b[4..12] == U64(off) && b[12..16] == U32(length);
    FourBytes(uses);
    EightBytes(off);
    FourBytes(length);
  }

  /** The length of a token, its bytes, and the numbers. */
  ghost predicate IsTokenRecord(b: Bytes, token: Bytes, uses: nat, off: nat, length: nat) {
    var n := |token|;
    && |b| == 20 + n && Four(b[0..4]) == n && b[4..4 + n] == token
    && IsNumbers(b[4 + n..], uses, off, length)
  }

  lemma {:induction false} TokenIsLaidOut(row: LexiconFile.Row, off: u64)
    requires LexiconFile.RowFits(row, off)
    ensures IsTokenRecord(LexiconFile.LexiconBytes(row, off), Encode(row.token), |row.ids|, off, 4 + 4 * |row.ids|)
  {
    var token, uses := Encode(row.token), |row.ids|;
    UsesFit(row, off);
    TokenStands(token, uses, off, 4 + 4 * uses);
  }

  lemma {:induction false} TokenStands(token: Bytes, uses: nat, off: u64, length: nat)
    requires |token| < U32_LIMIT && uses < U32_LIMIT && length < U32_LIMIT
    ensures IsTokenRecord(LexiconFile.TokenBytes(token) + LexiconFile.NumberBytes(uses, off, length), token, uses, off,
      length)
  {
    TokenThen(token, LexiconFile.NumberBytes(uses, off, length));
    NumbersAreLaidOut(uses, off, length);
    FourBytes(|token|);
  }

  lemma {:induction false} UsesFit(row: LexiconFile.Row, off: u64)
    requires LexiconFile.RowFits(row, off)
    ensures |Encode(row.token)| < U32_LIMIT && 4 + 4 * |row.ids| < U32_LIMIT
    ensures LexiconFile.Capped32(|row.ids|) == |row.ids|
  {
  }

  lemma {:induction false} TokenThen(token: Bytes, numbers: Bytes)
    requires |token| < U32_LIMIT
    ensures var b, n := LexiconFile.TokenBytes(token) + numbers, |token|;
      |b| == 4 + n + |numbers| && b[0..4] == U32(n) && b[4..4 + n] == token && b[4 + n..] == numbers
  {
  }

  /** The postings of a token: how many rows, and the rows. */
  lemma {:induction false} PostingsAreLaidOut(ids: seq<nat>, k: nat)
    requires k < |ids| < U32_LIMIT && ids[k] < U32_LIMIT
    ensures var b := LexiconFile.PostingBytes(ids);
      |b| == 4 + 4 * |ids| && Four(b[0..4]) == |ids| && Four(b[4 + 4 * k..8 + 4 * k]) == ids[k]
  {
    var b, rows := LexiconFile.PostingBytes(ids), LexiconFile.IdBytes(ids);
    assert b[0..4] == U32(|ids|);
    FourBytes(|ids|);
    IdsAreLaidOut(ids, k);
    assert b[4 + 4 * k..8 + 4 * k] == rows[4 * k..4 * k + 4];
    FourBytes(ids[k]);
  }

  lemma {:induction false} IdsAreLaidOut(ids: seq<nat>, k: nat)
    requires k < |ids|
    ensures LexiconFile.IdBytes(ids)[4 * k..4 * k + 4] == U32(ids[k])
  {
    var rest := LexiconFile.IdBytes(ids[1..]);
    SliceAfter(U32(ids[0]), rest, 4 * k - 4, 4 * k);
    if k > 0 { IdsAreLaidOut(ids[1..], k - 1); }
  }

  lemma {:induction false} SliceAfter(a: Bytes, b: Bytes, i: int, j: int)
    requires |a| == 4
    ensures (a + b)[0..4] == a
    ensures 0 <= i <= j <= |b| ==> (a + b)[i + 4..j + 4] == b[i..j]
  {
  }

  // ---------- which rows a token has ----------

  function Times(ids: seq<nat>, id: nat): nat {
    if ids == [] then 0 else Times(ids[..|ids| - 1], id) + if ids[|ids| - 1] == id then 1 else 0
  }

  lemma {:induction false} TimesJoin(a: seq<nat>, b: seq<nat>, id: nat)
    ensures Times(a + b, id) == Times(a, id) + Times(b, id)
    decreases |b|
  {
    if b == [] {
      assert a + b == a;
    } else {
      assert (a + b)[..|a + b| - 1] == a + b[..|b| - 1];
      TimesJoin(a, b[..|b| - 1], id);
    }
  }

  lemma {:induction false} IdsJoin(a: seq<LexiconFile.Use>, b: seq<LexiconFile.Use>, t: string)
    ensures LexiconFile.IdsOf(a + b, t) == LexiconFile.IdsOf(a, t) + LexiconFile.IdsOf(b, t)
    decreases |b|
  {
    if b == [] {
      assert a + b == a;
    } else {
      assert (a + b)[..|a + b| - 1] == a + b[..|b| - 1];
      IdsJoin(a, b[..|b| - 1], t);
    }
  }

  /** A token has the row once for each of its uses there. */
  lemma {:induction false} IdsOfOneRow(tokens: seq<string>, id: nat, t: string)
    ensures var ids := LexiconFile.IdsOf(LexiconFile.UsesOf(tokens, id), t);
      |ids| == Count(tokens, t) && forall k :: 0 <= k < |ids| ==> ids[k] == id
  {
    if tokens != [] {
      var uses := LexiconFile.UsesOf(tokens, id);
      IdsOfOneRow(tokens[..|tokens| - 1], id, t);
      assert uses[..|uses| - 1] == LexiconFile.UsesOf(tokens[..|tokens| - 1], id);
    }
  }

  lemma {:induction false} TimesOfSame(ids: seq<nat>, same: nat, id: nat)
    requires forall k :: 0 <= k < |ids| ==> ids[k] == same
    ensures Times(ids, id) == if id == same then |ids| else 0
  {
    if ids != [] { TimesOfSame(ids[..|ids| - 1], same, id); }
  }

  /** The postings of a token list each row as often as the row has it, in the order of the rows. */
  lemma {:induction false} PostingsCountUses(alnum: Alnum, chunks: seq<Chunk>, t: string, id: nat)
    ensures var ids := LexiconFile.IdsOf(LexiconFile.Uses(alnum, chunks), t);
      && (forall j, k :: 0 <= j < k < |ids| ==> ids[j] <= ids[k])
      && (forall k :: 0 <= k < |ids| ==> ids[k] < |chunks|)
      && Times(ids, id) == if id < |chunks| then Count(Tokenize(alnum, LexiconFile.JoinedText(chunks[id])), t) else 0
  {
    if chunks != [] {
      var n := |chunks| - 1;
      var tokens := Tokenize(alnum, LexiconFile.JoinedText(chunks[n]));
      var before, last := LexiconFile.Uses(alnum, chunks[..n]), LexiconFile.UsesOf(tokens, n);
      PostingsCountUses(alnum, chunks[..n], t, id);
      IdsJoin(before, last, t);
      IdsOfOneRow(tokens, n, t);
      TimesJoin(LexiconFile.IdsOf(before, t), LexiconFile.IdsOf(last, t), id);
      TimesOfSame(LexiconFile.IdsOf(last, t), n, id);
    }
  }

  // ---------- the beginning of each file ----------

  /** The letters that tell the kind of a file, and the version. */
  function Magic(kind: char): Bytes
    requires kind as int < 0x80
  {
    [84, 76, 77, kind as int, 48, 48, 48, 49]
  }

  lemma {:induction false} MagicText(kind: char)
    requires kind as int < 0x80
    ensures Magic(kind) == Encode(['T', 'L', 'M', kind, '0', '0', '0', '1'])
  {
    EightLetters(['T', 'L', 'M', kind, '0', '0', '0', '1'], Magic(kind));
  }

  /** Eight characters tell the kind of each file: `TLM`, a letter, and the version. */
  lemma {:induction false} MagicsAreText()
    ensures EntriesFile.ENTRIES_MAGIC == Encode(['T', 'L', 'M', 'E', '0', '0', '0', '1'])
    ensures CHUNKS_MAGIC == Encode(['T', 'L', 'M', 'C', '0', '0', '0', '1'])
    ensures LexiconFile.LEXICON_MAGIC == Encode(['T', 'L', 'M', 'L', '0', '0', '0', '1'])
    ensures LexiconFile.POSTINGS_MAGIC == Encode(['T', 'L', 'M', 'P', '0', '0', '0', '1'])
  {
    MagicText('E');
    MagicText('C');
    MagicText('L');
    MagicText('P');
  }

  /** Then comes how many records there are. */
  lemma {:induction false} HeaderIsLaidOut(magic: Bytes, n: nat)
    requires |magic| == 8 && n < U32_LIMIT
    ensures var b := Header(magic, n); |b| == 12 && b[..8] == magic && Four(b[8..12]) == n
  {
    assert Header(magic, n)[8..12] == U32(n);
    FourBytes(n);
  }

  /** Text in ASCII is its codes. */
  lemma {:induction false} EightLetters(s: string, b: Bytes)
    requires |s| == |b| && forall i :: 0 <= i < |s| ==> s[i] as int < 0x80 && b[i] == s[i] as int
    ensures Encode(s) == b
  {
    if s != "" {
      EightLetters(s[1..], b[1..]);
      assert EncodeChar(s[0]) == [b[0]];
      assert b == [b[0]] + b[1..];
    }
  }
}

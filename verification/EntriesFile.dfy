/** The paths and entries files of the layout (crates/termlm-indexer/src/store.rs). */
module EntriesFile {
  import opened Wrappers
  import opened Utf8
  import opened Binary
  import opened Chunks
  import opened Ordering
  import opened Codecs

  datatype LoadError = TooShort | BadMagic | Truncated | Underflow | MissingEntry(index: nat)

  datatype WriteError = Overflow | HashCutInCharacter

  const ENTRIES_MAGIC: Bytes := [84, 76, 77, 69, 48, 48, 48, 49]
  const ENTRY_SIZE: nat := 60

  /** A command found on disk. */
  datatype Entry = Entry(name: string, path: string, mtime: i64, size: u64, inode: u64)

  // ---------- the path catalog ----------

  datatype Span = Span(off: nat, length: nat)

  datatype Catalog = Catalog(blob: Bytes, offsets: map<string, Span>)

  predicate SpanFits(s: Span) { s.off < U64_LIMIT && s.length < U32_LIMIT }

  function CatalogOf(entries: seq<Entry>): Result<Catalog, WriteError> {
    if entries == [] then Ok(Catalog([], map[])) else
      var path := entries[|entries| - 1].path;
      match CatalogOf(entries[..|entries| - 1])
      case Err(e) => Err(e)
      case Ok(c) =>
        var span := Span(|c.blob|, |Encode(path)|);
        if SpanFits(span) then Ok(Catalog(c.blob + Encode(path), c.offsets[path := span])) else Err(Overflow)
  }

  method BuildPathCatalog(entries: seq<Entry>) returns (r: Result<Catalog, WriteError>)
    ensures r == CatalogOf(entries)
  {
    var blob: Bytes, offsets: map<string, Span> := [], map[];
    for i := 0 to |entries|
      invariant CatalogOf(entries[..i]) == Ok(Catalog(blob, offsets))
    {
      assert entries[..i + 1][..i] == entries[..i];
      var bytes := Encode(entries[i].path);
      var span := Span(|blob|, |bytes|);
      if span.off >= U64_LIMIT || span.length >= U32_LIMIT {
        assert CatalogOf(entries[..i + 1]) == Err(Overflow);
        CatalogFails(entries, i + 1);
        return Err(Overflow);
      }
      offsets := offsets[entries[i].path := span];
      blob := blob + bytes;
    }
    assert entries[..|entries|] == entries;
    r := Ok(Catalog(blob, offsets));
  }

  lemma {:induction false} CatalogFails(entries: seq<Entry>, i: nat)
    requires i <= |entries| && CatalogOf(entries[..i]) == Err(Overflow)
    ensures CatalogOf(entries) == Err(Overflow)
    decreases |entries|
  {
    if i == |entries| {
      assert entries[..i] == entries;
    } else {
      assert entries[..|entries| - 1][..i] == entries[..i];
      CatalogFails(entries[..|entries| - 1], i);
    }
  }

  /** The bytes of a path are where the catalog says, also for a path that occurs twice. */
  ghost predicate Holds(c: Catalog, path: string) {
    && path in c.offsets && SpanFits(c.offsets[path])
    && c.offsets[path].off + c.offsets[path].length <= |c.blob|
    && c.blob[c.offsets[path].off..c.offsets[path].off + c.offsets[path].length] == Encode(path)
  }

  lemma {:induction false} CatalogHolds(entries: seq<Entry>, c: Catalog, i: nat)
    requires CatalogOf(entries) == Ok(c) && i < |entries|
    ensures Holds(c, entries[i].path)
  {
    var before, last := entries[..|entries| - 1], entries[|entries| - 1];
    var c0 := CatalogOf(before).value;
    var path := entries[i].path;
    if path == last.path {
      assert c.blob[|c0.blob|..] == Encode(path);
    } else {
      CatalogHolds(before, c0, i);
      StillHolds(c0, c, path, Encode(last.path));
    }
  }

  lemma {:induction false} StillHolds(before: Catalog, after: Catalog, path: string, more: Bytes)
    requires Holds(before, path) && after.blob == before.blob + more
    requires path in after.offsets && after.offsets[path] == before.offsets[path]
    ensures Holds(after, path)
  {
    var span := before.offsets[path];
    InPrefix(before.blob, more, span.off, span.off + span.length);
  }

  // ---------- what the chunks say of a path ----------

  datatype Stats = Stats(first: nat, count: nat, off: nat, length: nat)

  function SaturatingAdd(a: nat, b: nat, limit: nat): nat
    requires limit > 0
  {
    if a + b < limit then a + b else limit - 1
  }

  /** The length of the texts together, at most the largest 64-bit number. */
  function TextOffset(chunks: seq<Chunk>): (n: nat)
    ensures n < U64_LIMIT
  {
    if chunks == [] then 0
      else SaturatingAdd(TextOffset(chunks[..|chunks| - 1]), |Encode(chunks[|chunks| - 1].text)|, U64_LIMIT)
  }

  function Counted(s: Stats, off: nat, length: nat): Stats {
    Stats(s.first, SaturatingAdd(s.count, 1, U32_LIMIT), if s.length == 0 then off
      else s.off, SaturatingAdd(s.length, length, U64_LIMIT))
  }

  function StatsOf(chunks: seq<Chunk>): map<string, Stats> {
    if chunks == [] then map[] else
      var i := |chunks| - 1;
      var before, c := StatsOf(chunks[..i]), chunks[i];
      var s := if c.path in before then before[c.path] else Stats(i % U32_LIMIT, 0, 0, 0);
      before[c.path := Counted(s, TextOffset(chunks[..i]), |Encode(c.text)|)]
  }

  method BuildEntryStats(chunks: seq<Chunk>) returns (stats: map<string, Stats>)
    ensures stats == StatsOf(chunks)
  {
    stats := map[];
    var offset: nat := 0;
    for i := 0 to |chunks|
      invariant stats == StatsOf(chunks[..i]) && offset == TextOffset(chunks[..i])
    {
      var c := chunks[i];
      var length := |Encode(c.text)|;
      assert chunks[..i + 1][..i] == chunks[..i] && chunks[..i + 1][i] == c;
      var s := if c.path in stats then stats[c.path] else Stats(i % U32_LIMIT, 0, 0, 0);
      stats := stats[c.path := Counted(s, offset, length)];
      offset := SaturatingAdd(offset, length, U64_LIMIT);
    }
    assert chunks[..|chunks|] == chunks;
  }

  // ---------- the entries file ----------

  function KeyBytes(span: Span): (b: Bytes)
    requires SpanFits(span)
    ensures |b| == 12
  {
    U64(span.off) + U32(span.length)
  }

  function MetaBytes(e: Entry): (b: Bytes)
    ensures |b| == 24
  {
    I64(e.mtime) + U64(e.size) + U64(e.inode)
  }

  function StatsBytes(s: Stats): (b: Bytes)
    ensures |b| == 24
  {
    U64(s.off % U64_LIMIT) + U64(s.length % U64_LIMIT) + U32(s.first) + U32(s.count)
  }

  function EntryBytes(span: Span, e: Entry, s: Stats): (b: Bytes)
    requires SpanFits(span)
    ensures |b| == ENTRY_SIZE
  {
    KeyBytes(span) + MetaBytes(e) + StatsBytes(s)
  }

  function SpanOf(c: Catalog, path: string): (s: Span)
    requires forall p :: p in c.offsets ==> SpanFits(c.offsets[p])
    ensures SpanFits(s)
  {
    if path in c.offsets then c.offsets[path] else Span(0, 0)
  }

  function StatsAt(stats: map<string, Stats>, path: string): Stats {
    if path in stats then stats[path] else Stats(0, 0, 0, 0)
  }

  predicate Fits(c: Catalog) { forall p :: p in c.offsets ==> SpanFits(c.offsets[p]) }

  lemma {:induction false} CatalogFits(entries: seq<Entry>, c: Catalog)
    requires CatalogOf(entries) == Ok(c)
    ensures Fits(c)
  {
    if entries != [] { CatalogFits(entries[..|entries| - 1], CatalogOf(entries[..|entries| - 1]).value); }
  }

  function RecordOf(c: Catalog, stats: map<string, Stats>): Entry -> Bytes
    requires Fits(c)
  {
    (e: Entry) => EntryBytes(SpanOf(c, e.path), e, StatsAt(stats, e.path))
  }

  function PathsBin(entries: seq<Entry>): Result<Bytes, WriteError> {
    match CatalogOf(entries) case Ok(c) => Ok(c.blob) case Err(e) => Err(e)
  }

  method WritePathsBin(entries: seq<Entry>) returns (r: Result<Bytes, WriteError>)
    ensures r == PathsBin(entries)
  {
    var c := BuildPathCatalog(entries);
    r := match c case Ok(c) => Ok(c.blob) case Err(e) => Err(e);
  }

  function EntriesBin(entries: seq<Entry>, chunks: seq<Chunk>): Result<Bytes, WriteError> {
    match CatalogOf(entries)
    case Err(e) => Err(e)
    case Ok(c) =>
      CatalogFits(entries, c);
      Ok(Header(ENTRIES_MAGIC, |entries|) + Records(RecordOf(c, StatsOf(chunks)), entries))
  }

  method WriteEntriesBin(entries: seq<Entry>, chunks: seq<Chunk>) returns (r: Result<Bytes, WriteError>)
    ensures r == EntriesBin(entries, chunks)
  {
    var catalog := BuildPathCatalog(entries);
    if catalog.Err? {
      return Err(catalog.error);
    }
    CatalogFits(entries, catalog.value);
    var stats := BuildEntryStats(chunks);
    var payload := PutRecords(RecordOf(catalog.value, stats), entries, Header(ENTRIES_MAGIC, |entries|));
    r := Ok(payload);
  }

  // ---------- reading ----------

  function BlobBytes(blob: Bytes, off: nat, length: nat): Option<Bytes> {
    if off + length > |blob| then None else Some(blob[off..off + length])
  }

  /** The path a span points at; empty when it points nowhere or at bytes that are no text. */
  function PathAt(blob: Bytes, off: nat, length: nat): string {
    match BlobBytes(blob, off, length)
    case None => ""
    case Some(bytes) => match Decode(bytes) case Some(path) => path case None => ""
  }

  function EntryAt(raw: Bytes, base: nat, blob: Bytes): Entry
    requires base + ENTRY_SIZE <= |raw|
  {
    var path := PathAt(blob, GetU64(raw[base..base + 8]), GetU32(raw[base + 8..base + 12]));
    Entry(CommandName(path), path, GetI64(raw[base + 12..base + 20]), GetU64(raw[base + 20..base + 28]),
      GetU64(raw[base + 28..base + 36]))
  }

  function EntriesOf(raw: Bytes, blob: Bytes): Result<seq<Entry>, LoadError> {
    if |raw| < 12 then Err(TooShort)
    else if raw[..8] != ENTRIES_MAGIC then Err(BadMagic)
    else
      var count: nat := GetU32(raw[8..12]);
      if |raw| < 12 + count * ENTRY_SIZE then Err(Truncated)
      else Ok(seq(count, i requires 0 <= i < count => EntryAt(raw, Base(raw, count, i), blob)))
  }

  /** Where record `i` starts. */
  function Base(raw: Bytes, count: nat, i: nat): (base: nat)
    requires i < count && |raw| >= 12 + count * ENTRY_SIZE
    ensures base + ENTRY_SIZE <= |raw| && base == 12 + i * ENTRY_SIZE
  {
    assert i * ENTRY_SIZE + ENTRY_SIZE <= count * ENTRY_SIZE;
    12 + i * ENTRY_SIZE
  }

  method ReadEntries(raw: Bytes, blob: Bytes) returns (r: Result<seq<Entry>, LoadError>)
    ensures r == EntriesOf(raw, blob)
  {
    if |raw| < 12 {
      return Err(TooShort);
    }
    if raw[..8] != ENTRIES_MAGIC {
      return Err(BadMagic);
    }
    var count: nat := GetU32(raw[8..12]);
    if |raw| < 12 + count * ENTRY_SIZE {
      return Err(Truncated);
    }
    var out: seq<Entry> := [];
    for i := 0 to count
      invariant out == seq(i, k requires 0 <= k < i => EntryAt(raw, Base(raw, count, k), blob))
    {
      out := out + [EntryAt(raw, Base(raw, count, i), blob)];
    }
    r := Ok(out);
  }

  // ---------- the round trip ----------

  /** What a record says, read at the offsets of its fields. */
  lemma {:induction false} KeyFields(span: Span)
    requires SpanFits(span)
    ensures var b := KeyBytes(span); GetU64(b[0..8]) == span.off && GetU32(b[8..12]) == span.length
  {
    var b := KeyBytes(span);
    TwoParts(U64(span.off), U32(span.length));
    assert b == U64(span.off) + U32(span.length);
    GetU64Back(span.off);
    GetU32Back(span.length);
  }

  lemma {:induction false} MetaFields(e: Entry)
    ensures var b := MetaBytes(e);
      GetI64(b[0..8]) == e.mtime && GetU64(b[8..16]) == e.size && GetU64(b[16..24]) == e.inode
  {
    var b := MetaBytes(e);
    assert b[0..8] == I64(e.mtime) && b[8..16] == U64(e.size) && b[16..24] == U64(e.inode);
    GetI64Back(e.mtime);
    GetU64Back(e.size);
    GetU64Back(e.inode);
  }

  lemma {:induction false} EntryBack(raw: Bytes, base: nat, c: Catalog, e: Entry, s: Stats)
    requires base + ENTRY_SIZE <= |raw| && Holds(c, e.path) && Fits(c)
    requires raw[base..base + ENTRY_SIZE] == EntryBytes(SpanOf(c, e.path), e, s)
    ensures EntryAt(raw, base, c.blob) == e.(name := CommandName(e.path))
  {
    var span := SpanOf(c, e.path);
    var key, meta, record := KeyBytes(span), MetaBytes(e), EntryBytes(span, e, s);
    assert record[0..12] == key && record[12..36] == meta;
    PartOf(raw, base, record, 0, 12);
    PartOf(raw, base, record, 12, 36);
    FieldsBack(raw, base, c, e);
  }

  lemma {:induction false} FieldsBack(raw: Bytes, base: nat, c: Catalog, e: Entry)
    requires base + ENTRY_SIZE <= |raw| && Holds(c, e.path) && Fits(c)
    requires raw[base..base + 12] == KeyBytes(SpanOf(c, e.path)) && raw[base + 12..base + 36] == MetaBytes(e)
    ensures EntryAt(raw, base, c.blob) == e.(name := CommandName(e.path))
  {
    KeyFields(SpanOf(c, e.path));
    MetaFields(e);
    FieldsOf(raw, base, KeyBytes(SpanOf(c, e.path)), MetaBytes(e));
    DecodeEncode(e.path);
  }

  lemma {:induction false} FieldsOf(raw: Bytes, base: nat, key: Bytes, meta: Bytes)
    requires base + 36 <= |raw| && |key| == 12 && |meta| == 24
    requires raw[base..base + 12] == key && raw[base + 12..base + 36] == meta
    ensures raw[base..base + 8] == key[0..8] && raw[base + 8..base + 12] == key[8..12]
    ensures raw[base + 12..base + 20] == meta[0..8] && raw[base + 20..base + 28] == meta[8..16] &&
      raw[base + 28..base + 36] == meta[16..24]
  {
    PartOf(raw, base, key, 0, 8);
    PartOf(raw, base, key, 8, 12);
    PartOf(raw, base + 12, meta, 0, 8);
    PartOf(raw, base + 12, meta, 8, 16);
    PartOf(raw, base + 12, meta, 16, 24);
  }

  function Renamed(): Entry -> Entry { (e: Entry) => e.(name := CommandName(e.path)) }

  /** Entries come back in order with the names their paths give, as many as a 32-bit count can tell. */
  lemma {:induction false} EntriesRoundTrip(entries: seq<Entry>, c: Catalog, stats: map<string, Stats>)
    requires CatalogOf(entries) == Ok(c) && Fits(c)
    ensures EntriesOf(Header(ENTRIES_MAGIC, |entries|) + Records(RecordOf(c, stats), entries), c.blob) ==
      Ok(Mapped(Renamed(), entries[..Kept(|entries|)]))
  {
    var records, n := Records(RecordOf(c, stats), entries), Kept(|entries|);
    var raw := Header(ENTRIES_MAGIC, |entries|) + records;
    RecordAt(RecordOf(c, stats), entries, ENTRY_SIZE);
    HeaderRead(ENTRIES_MAGIC, |entries|, records);
    FewerRecords(n, |entries|, ENTRY_SIZE);
    forall i | 0 <= i < n ensures EntryAt(raw, Base(raw, n, i), c.blob) == Renamed()(entries[i]) {
      EntryReadBack(raw, entries, c, stats, n, i);
    }
    EntriesRead(raw, c.blob, n, Mapped(Renamed(), entries[..n]));
  }

  lemma {:induction false} RecordHere(raw: Bytes, record: Entry -> Bytes, entries: seq<Entry>, i: nat, base: nat)
    requires i < |entries| && base == 12 + i * ENTRY_SIZE && |raw| >= 12
    requires raw[12..] == Records(record, entries) &&
      forall k :: 0 <= k < |entries| ==> |record(entries[k])| == ENTRY_SIZE
    ensures base + ENTRY_SIZE <= |raw| && raw[base..base + ENTRY_SIZE] == record(entries[i])
  {
    RecordAt(record, entries, ENTRY_SIZE);
    PartOfTail(raw, 12, i * ENTRY_SIZE, i * ENTRY_SIZE + ENTRY_SIZE);
  }

  lemma {:induction false} EntryReadBack(raw: Bytes, entries: seq<Entry>, c: Catalog, stats: map<string, Stats>,
      n: nat, i: nat)
    requires CatalogOf(entries) == Ok(c) && Fits(c) && i < n <= |entries| && |raw| >= 12 + |entries| * ENTRY_SIZE
    requires raw[12..] == Records(RecordOf(c, stats), entries)
    ensures |raw| >= 12 + n * ENTRY_SIZE && EntryAt(raw, Base(raw, n, i), c.blob) == Renamed()(entries[i])
  {
    FewerRecords(n, |entries|, ENTRY_SIZE);
    var base, e := Base(raw, n, i), entries[i];
    RecordHere(raw, RecordOf(c, stats), entries, i, base);
    CatalogHolds(entries, c, i);
    EntryBack(raw, base, c, e, StatsAt(stats, e.path));
    assert Renamed()(e) == e.(name := CommandName(e.path));
  }

  lemma {:induction false} EntriesRead(raw: Bytes, blob: Bytes, n: nat, entries: seq<Entry>)
    requires |raw| >= 12 + n * ENTRY_SIZE && raw[..8] == ENTRIES_MAGIC && GetU32(raw[8..12]) == n == |entries|
    requires forall i :: 0 <= i < n ==> EntryAt(raw, Base(raw, n, i), blob) == entries[i]
    ensures EntriesOf(raw, blob) == Ok(entries)
  {
    var read := EntriesOf(raw, blob).value;
    assert |read| == n && forall i :: 0 <= i < n ==> read[i] == EntryAt(raw, Base(raw, n, i), blob);
    assert read == entries;
  }

  /** They come back unchanged exactly when there are not too many and each is named after its path. */
  lemma {:induction false} EntriesSurvive(entries: seq<Entry>)
    ensures Mapped(Renamed(), entries[..Kept(|entries|)]) == entries <==>
            |entries| < U32_LIMIT && forall i :: 0 <= i < |entries| ==> entries[i].name == CommandName(entries[i].path)
  {
    var n := Kept(|entries|);
    var back := Mapped(Renamed(), entries[..n]);
    assert forall i :: 0 <= i < n ==> back[i] == Renamed()(entries[i]);
    assert forall e: Entry :: Renamed()(e) == e <==> e.name == CommandName(e.path);
    assert back == entries <==> n == |entries| && forall i :: 0 <= i < n ==> back[i] == entries[i];
  }
}

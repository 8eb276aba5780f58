/** What comes back when a layout is written and loaded (crates/termlm-indexer/src/store.rs). */
module Layout {
  import opened Wrappers
  import opened Utf8
  import opened Binary
  import opened Chunks
  import opened Ordering
  import opened Codecs
  import opened EntriesFile
  import opened ChunksFile
  import opened ChunksReader

  // ---------- the section table ----------

  lemma {:induction false} SectionBack(host: Host, name: string, rest: Bytes)
    requires |Encode(name)| < U32_LIMIT
    ensures TakeSection(host, NameBytes(Encoder())(name) + rest) == Ok((name, rest))
  {
    var b := Encode(name);
    assert NameBytes(Encoder())(name) + rest == U32(|b|) + (b + rest);
    TakeU32Same(|b|, b + rest);
    TakeBytesBack(b, rest);
    DecodeEncode(name);
    SectionStep(host, U32(|b|) + (b + rest), |b|, b + rest, b, rest, name);
  }

  lemma {:induction false} SectionStep(host: Host, b: Bytes, length: nat, b1: Bytes, name: Bytes, rest: Bytes,
      text: string)
    requires TakeU32(b) == Some((length, b1)) && TakeBytes(b1, length) == Some((name, rest)) &&
      Decode(name) == Some(text)
    ensures TakeSection(host, b) == Ok((text, rest))
  {
  }

  /** A way of writing a name is read back whatever follows it. */
  ghost predicate ReadsBack(host: Host, field: string -> Bytes, name: string) {
    forall rest: Bytes :: TakeSection(host, field(name) + rest) == Ok((name, rest))
  }

  lemma {:induction false} SectionsBack(host: Host, field: string -> Bytes, names: seq<string>, rest: Bytes,
      before: seq<string>)
    requires forall name :: name in names ==> ReadsBack(host, field, name)
    ensures TakeSections(host, |names|, Records(field, names) + rest, before) == Ok((before + names, rest))
  {
    if names == [] {
      assert before + names == before;
      assert Records(field, names) + rest == rest;
    } else {
      var name, later, more := names[0], Records(field, names[1..]) + rest, before + [names[0]];
      RecordsFront(field, names);
      assert Records(field, names) + rest == field(name) + later;
      assert more + names[1..] == before + names;
      calc {
        TakeSections(host, |names|, field(name) + later, before);
        { assert ReadsBack(host, field, name);
          SectionsStep(host, |names|, |names| - 1, field(name) + later, before, name, later); }
        TakeSections(host, |names| - 1, later, more);
        { assert |names[1..]| == |names| - 1;
          SectionsBack(host, field, names[1..], rest, more); }
        Ok((more + names[1..], rest));
      }
    }
  }

  lemma {:induction false} NamesBack(host: Host, names: seq<string>)
    requires NamesFit(Encoder(), names)
    ensures forall name :: name in names ==> ReadsBack(host, NameBytes(Encoder()), name)
  {
    forall name | name in names ensures ReadsBack(host, NameBytes(Encoder()), name) {
      assert |Encode(name)| == |Encoder()(name)|;
      forall rest: Bytes ensures TakeSection(host, NameBytes(Encoder())(name) + rest) == Ok((name, rest)) {
        SectionBack(host, name, rest);
      }
    }
  }

  // ---------- a record ----------

  lemma {:induction false} FourParts(all: Bytes, a: Bytes, b: Bytes, c: Bytes, d: Bytes)
    requires |a| == 4 && |b| == 4 && |c| == 8 && |d| == 4 && all == a + b + c + d
    ensures all[0..4] == a && all[4..8] == b && all[8..16] == c && all[16..20] == d
  {
  }

  lemma {:induction false} PlaceBack(p: Place)
    ensures PlaceAt(PlaceBytes(p)) == p
  {
    FourParts(PlaceBytes(p), U32(p.entry), U32(p.section), U64(p.off), U32(p.length));
    GetU32Back(p.entry);
    GetU32Back(p.section);
    GetU64Back(p.off);
    GetU32Back(p.length);
  }

  lemma {:induction false} RankBack(r: Rank)
    ensures RankAt(RankBytes(r)) == r
  {
    var b := RankBytes(r);
    assert b[0..4] == U32(r.index) && b[4..8] == U32(r.total) && b[8] == (if r.tombstone then 1 else 0) &&
      b[9] == r.code;
    GetU32Back(r.index);
    GetU32Back(r.total);
  }

  lemma {:induction false} StampBack(s: Stamp)
    ensures StampAt(StampBytes(s)) == s
  {
    var b := StampBytes(s);
    assert b[0..8] == I64(s.secs) && b[8..40] == s.hash;
    GetI64Back(s.secs);
  }

  lemma {:induction false} RecordBack(r: Record, rest: Bytes)
    ensures |RecordBytes()(r)| == CHUNK_SIZE && TakeRecord(RecordBytes()(r) + rest) == Some((r, rest))
  {
    var place, rank, stamp := PlaceBytes(r.place), RankBytes(r.rank), StampBytes(r.stamp);
    var b := RecordBytes()(r) + rest;
    assert b[..20] == place && b[20..32] == rank && b[32..72] == stamp && b[72..] == rest;
    PlaceBack(r.place);
    RankBack(r.rank);
    StampBack(r.stamp);
  }

  // ---------- the rows ----------

  /** What the records stand for. */
  function RestoreAll(restore: Restorer, records: seq<Record>): Result<seq<Chunk>, LoadError> {
    if records == [] then Ok([]) else
      match restore(records[0])
      case Err(e) => Err(e)
      case Ok(chunks) =>
        match RestoreAll(restore, records[1..])
        case Err(e) => Err(e)
        case Ok(more) => Ok(chunks + more)
  }

  lemma {:induction false} RowsBack(restore: Restorer, records: seq<Record>)
    ensures |Records(RecordBytes(), records)| == |records| * CHUNK_SIZE
    ensures TakeChunks(restore, |records|, Records(RecordBytes(), records)) == RestoreAll(restore, records)
  {
    if records != [] {
      var later := Records(RecordBytes(), records[1..]);
      RecordsFront(RecordBytes(), records);
      RecordBack(records[0], later);
      RowsBack(restore, records[1..]);
      RowsStep(restore, |records|, RecordBytes()(records[0]) + later, records[0], later);
    }
  }

  lemma {:induction false} RowsRead(restore: Restorer, records: seq<Record>, n: nat, rows: Bytes)
    requires n == |records| && rows == Records(RecordBytes(), records)
    ensures |rows| == n * CHUNK_SIZE && TakeChunks(restore, n, rows) == RestoreAll(restore, records)
  {
    RowsBack(restore, records);
  }

  /** The first record and the rest. */
  function Then(first: Result<seq<Chunk>, LoadError>, rest: Result<seq<Chunk>, LoadError>): Result<seq<Chunk>,
      LoadError> {
    match first
    case Err(e) => Err(e)
    case Ok(chunks) => match rest case Err(e) => Err(e) case Ok(more) => Ok(chunks + more)
  }

  lemma {:induction false} RowsStep(restore: Restorer, n: nat, b: Bytes, r: Record, rest: Bytes)
    requires n > 0 && TakeRecord(b) == Some((r, rest))
    ensures TakeChunks(restore, n, b) == Then(restore(r), TakeChunks(restore, n - 1, rest))
  {
  }

  lemma {:induction false} RestoreJoin(restore: Restorer, a: seq<Record>, b: seq<Record>)
    ensures RestoreAll(restore, a + b) == Then(RestoreAll(restore, a), RestoreAll(restore, b))
  {
    if a == [] {
      assert a + b == b;
      assert forall more: seq<Chunk> :: [] + more == more;
    } else {
      assert (a + b)[0] == a[0] && (a + b)[1..] == a[1..] + b;
      RestoreJoin(restore, a[1..], b);
      ThenThen(restore(a[0]), RestoreAll(restore, a[1..]), RestoreAll(restore, b));
    }
  }

  lemma {:induction false} ThenThen(a: Result<seq<Chunk>, LoadError>, b: Result<seq<Chunk>, LoadError>,
      c: Result<seq<Chunk>, LoadError>)
    ensures Then(a, Then(b, c)) == Then(Then(a, b), c)
  {
    if a.Ok? && b.Ok? && c.Ok? { assert a.value + (b.value + c.value) == (a.value + b.value) + c.value; }
  }

  lemma {:induction false} RestoreLast(restore: Restorer, before: seq<Record>, r: Record)
    ensures RestoreAll(restore, before + [r]) == Then(RestoreAll(restore, before), restore(r))
  {
    RestoreJoin(restore, before, [r]);
    assert RestoreAll(restore, [r]) == restore(r) by {
      assert [r][1..] == [];
      if restore(r).Ok? { assert restore(r).value + [] == restore(r).value; }
    }
  }

  // ---------- live chunks ----------

  /** What a chunk keeps: all but the name, method and hash that its path and the codecs give, and parts of a second. */
  function Restored(): Chunk -> Chunk {
    (c: Chunk) => Chunk(CommandName(c.path), c.path, MethodName(MethodCode(c.extractionMethod)), c.sectionName,
      c.chunkIndex, c.totalChunks,
                        HashBack(c.docHash), Time(c.extractedAt.secs, 0), c.text)
  }

  ghost predicate IsEntryPath(entries: seq<Entry>, path: string) {
    exists i :: 0 <= i < |entries| && entries[i].path == path
  }

  /** The text is in the docs file where the record says. */
  ghost predicate TextAt(docs: Bytes, off: nat, text: string) {
    off + |Encode(text)| <= |docs| && docs[off..off + |Encode(text)|] == Encode(text)
  }

  lemma {:induction false} TextBack(host: Host, docs: Bytes, off: nat, text: string)
    requires TextAt(docs, off, text)
    ensures BlobBytes(docs, off, |Encode(text)|) == Some(Encode(text)) && Lossy(host.repair, Encode(text)) == text
  {
    DecodeEncode(text);
  }

  predicate Distinct(names: seq<string>) {
    forall i, j :: 0 <= i < j < |names| ==> names[i] != names[j]
  }

  /** A number to be read back: names of sections, rows of entries. */
  lemma {:induction false} IdsBack(ids: Ids, entries: seq<Entry>, names: seq<string>, c: Chunk)
    requires |entries| < U32_LIMIT && |names| < U32_LIMIT && ids == IdsFor(entries, names) && Distinct(names) &&
      c.sectionName in names
    ensures var s := Lookup(ids.sections, c.sectionName, 0); s < |names| && names[s] == c.sectionName
    ensures var e := Lookup(ids.entries, c.path, U32_LIMIT - 1);
      if IsEntryPath(entries, c.path) then e < |entries| && entries[e].path == c.path else e == U32_LIMIT - 1
  {
    NumberMapNumbers(names);
    NumberOf(ids.sections, names, c.sectionName);
    EntryIdsHold(entries, c.path);
  }

  ghost function LoadedOne(entries: seq<Entry>, c: Chunk): Result<seq<Chunk>, LoadError> {
    if IsEntryPath(entries, c.path) then Ok([Restored()(c)]) else Err(MissingEntry(U32_LIMIT - 1))
  }

  lemma {:induction false} LiveBack(host: Host, docs: Bytes, entries: seq<Entry>, names: seq<string>, ids: Ids,
      c: Chunk, off: u64, r: Record)
    requires |entries| < U32_LIMIT && |names| < U32_LIMIT && ids == IdsFor(entries, names) && Distinct(names) &&
      c.sectionName in names
    requires RecordFor(c, true, off, ids) == Ok(r) && TextAt(docs, off, c.text) && host.valid(c.extractedAt.secs)
    ensures RestorerFor(host, docs, Mapped(Renamed(), entries), names)(r) ==
            LoadedOne(entries, c)
  {
    IdsBack(ids, entries, names, c);
    TextBack(host, docs, off, c.text);
  }

  /** The chunks in order, or the error for a path that is no entry's. */
  ghost function Loaded(entries: seq<Entry>, chunks: seq<Chunk>): Result<seq<Chunk>, LoadError> {
    if forall c :: c in chunks ==>
      IsEntryPath(entries, c.path) then Ok(Mapped(Restored(), chunks)) else Err(MissingEntry(U32_LIMIT - 1))
  }

  lemma {:induction false} LoadedLast(entries: seq<Entry>, before: seq<Chunk>, c: Chunk)
    ensures Loaded(entries, before + [c]) ==
            Then(Loaded(entries, before), LoadedOne(entries, c))
  {
    var all := before + [c];
    assert forall x :: x in all <==> x in before || x == c;
    assert Mapped(Restored(), all) == Mapped(Restored(), before) + [Restored()(c)];
  }

  lemma {:induction false} DocsPrefix(chunks: seq<Chunk>, i: nat)
    requires i < |chunks|
    ensures TextAt(Records(TextBytes(), chunks), |Records(TextBytes(), chunks[..i])|, chunks[i].text)
    decreases |chunks|
  {
    var n := |chunks| - 1;
    var all, before := Records(TextBytes(), chunks), Records(TextBytes(), chunks[..n]);
    assert all == before + Encode(chunks[n].text);
    if i < n {
      DocsPrefix(chunks[..n], i);
      assert chunks[..n][..i] == chunks[..i];
      TextStillAt(before, Encode(chunks[n].text), |Records(TextBytes(), chunks[..i])|, chunks[i].text);
    }
  }

  lemma {:induction false} TextStillAt(docs: Bytes, more: Bytes, off: nat, text: string)
    requires TextAt(docs, off, text)
    ensures TextAt(docs + more, off, text)
  {
    InPrefix(docs, more, off, off + |Encode(text)|);
  }

  /** Offsets are the lengths of the texts before, as long as they fit. */
  lemma {:induction false} OffsetIsLength(chunks: seq<Chunk>, i: nat)
    requires i <= |chunks| && |Records(TextBytes(), chunks)| < U64_LIMIT
    ensures TextOffset(chunks[..i]) == |Records(TextBytes(), chunks[..i])|
    decreases |chunks|, i
  {
    if i < |chunks| {
      assert chunks[..|chunks| - 1][..i] == chunks[..i];
      OffsetIsLength(chunks[..|chunks| - 1], i);
    } else if i > 0 {
      assert chunks[..i] == chunks;
      OffsetIsLength(chunks, i - 1);
    }
  }

  /** Each record that is made stands for its chunk. */
  ghost predicate RestoresEach(restore: Restorer, make: Maker, entries: seq<Entry>, chunks: seq<Chunk>) {
    forall i | 0 <= i < |chunks| ::
      var made := make(chunks[i], TextOffset(chunks[..i]));
      made.Ok? ==> restore(made.value) == LoadedOne(entries, chunks[i])
  }

  lemma {:induction false} FewerRestore(restore: Restorer, make: Maker, entries: seq<Entry>, chunks: seq<Chunk>, n: nat)
    requires RestoresEach(restore, make, entries, chunks) && n <= |chunks|
    ensures RestoresEach(restore, make, entries, chunks[..n])
  {
    forall i | 0 <= i < n ensures chunks[..n][..i] == chunks[..i] && chunks[..n][i] == chunks[i] {
    }
  }

  lemma {:induction false} LiveRestores(restore: Restorer, make: Maker, entries: seq<Entry>, chunks: seq<Chunk>,
      records: seq<Record>)
    requires RestoresEach(restore, make, entries, chunks) && RecordsFor(make, chunks) == Ok(records)
    ensures |records| == |chunks| && RestoreAll(restore, records) == Loaded(entries, chunks)
  {
    if chunks != [] {
      var n := |chunks| - 1;
      var before, made := RecordsFor(make, chunks[..n]).value, make(chunks[n], TextOffset(chunks[..n])).value;
      FewerRestore(restore, make, entries, chunks, n);
      LiveRestores(restore, make, entries, chunks[..n], before);
      RestoreLast(restore, before, made);
      LoadedLast(entries, chunks[..n], chunks[n]);
      assert chunks[..n] + [chunks[n]] == chunks;
    }
  }

  /** Whatever record is made stands for no chunk. */
  ghost predicate Drops(restore: Restorer, make: Maker) {
    forall c, off :: make(c, off).Ok? ==> restore(make(c, off).value) == Ok([])
  }

  lemma {:induction false} DeadRestores(restore: Restorer, make: Maker, tombstones: seq<Chunk>, records: seq<Record>)
    requires RecordsFor(make, tombstones) == Ok(records)
    requires Drops(restore, make)
    ensures |records| == |tombstones| && RestoreAll(restore, records) == Ok([])
  {
    if tombstones != [] {
      var n := |tombstones| - 1;
      var before := RecordsFor(make, tombstones[..n]).value;
      var made := make(tombstones[n], TextOffset(tombstones[..n])).value;
      DeadRestores(restore, make, tombstones[..n], before);
      RestoreLast(restore, before, made);
      var none: seq<Chunk> := [];
      assert none + none == none;
    }
  }

  // ---------- the chunks file ----------

  /** A file of names and rows is read as the rows. */
  lemma {:induction false} FileBack(host: Host, raw: Bytes, docs: Bytes, entries: seq<Entry>, names: seq<string>,
      rows: Bytes, n: u32)
    requires |names| < U32_LIMIT && |rows| == n * CHUNK_SIZE &&
      forall name :: name in names ==> ReadsBack(host, NameBytes(Encoder()), name)
    requires raw == Preamble(names, n) + rows
    ensures ChunksOf(host, raw, docs, entries) == TakeChunks(RestorerFor(host, docs, entries, names), n, rows)
  {
    var table := Records(NameBytes(Encoder()), names);
    Nested(Header(CHUNKS_MAGIC, |names|), table, U32(n), rows);
    HeaderRead(CHUNKS_MAGIC, |names|, table + (U32(n) + rows));
    SectionsBack(host, NameBytes(Encoder()), names, U32(n) + rows, []);
    assert [] + names == names;
    TakeU32Same(n, rows);
    FileRead(host, raw, docs, entries, names, U32(n) + rows, n, rows,
      TakeChunks(RestorerFor(host, docs, entries, names), n, rows));
  }

  lemma {:induction false} Nested(a: Bytes, b: Bytes, c: Bytes, d: Bytes)
    ensures a + b + c + d == a + (b + (c + d))
  {
  }

  lemma {:induction false} FileRead(host: Host, raw: Bytes, docs: Bytes, entries: seq<Entry>, names: seq<string>,
      b: Bytes, n: nat, rows: Bytes,
                                    all: Result<seq<Chunk>, LoadError>)
    requires |raw| >= 12 && raw[..8] == CHUNKS_MAGIC &&
      TakeSections(host, GetU32(raw[8..12]), raw[12..], []) == Ok((names, b))
    requires TakeU32(b) == Some((n, rows)) && |rows| == n * CHUNK_SIZE
    requires TakeChunks(RestorerFor(host, docs, entries, names), n, rows) == all
    ensures ChunksOf(host, raw, docs, entries) == all
  {
  }

  // ---------- the whole layout ----------

  datatype LayoutFiles = LayoutFiles(paths: Bytes, entries: Bytes, docs: Bytes, chunks: Bytes)

  function LayoutOf(entries: seq<Entry>, chunks: seq<Chunk>, tombstones: seq<Chunk>): Result<LayoutFiles, WriteError> {
    match PathsBin(entries)
    case Err(e) => Err(e)
    case Ok(paths) =>
      match EntriesBin(entries, chunks)
      case Err(e) => Err(e)
      case Ok(table) =>
        match ChunksBin(entries, chunks, tombstones)
        case Err(e) => Err(e)
        case Ok(rows) => Ok(LayoutFiles(paths, table, Records(TextBytes(), chunks), rows))
  }

  method WriteLayoutArtifacts(entries: seq<Entry>, chunks: seq<Chunk>, tombstones: seq<Chunk>)
      returns (r: Result<LayoutFiles, WriteError>)
    ensures r == LayoutOf(entries, chunks, tombstones)
  {
    var paths := WritePathsBin(entries);
    if paths.Err? {
      return Err(paths.error);
    }
    var table := WriteEntriesBin(entries, chunks);
    if table.Err? {
      return Err(table.error);
    }
    var docs := WriteDocsBin(chunks);
    var rows := WriteChunksBin(entries, chunks, tombstones);
    if rows.Err? {
      return Err(rows.error);
    }
    r := Ok(LayoutFiles(paths.value, table.value, docs, rows.value));
  }

  function ChunksIn(host: Host, files: LayoutFiles): Result<seq<Chunk>, LoadError> {
    match EntriesOf(files.entries, files.paths)
    case Err(e) => Err(e)
    case Ok(entries) => ChunksOf(host, files.chunks, files.docs, entries)
  }

  method LoadChunks(host: Host, files: LayoutFiles) returns (r: Result<seq<Chunk>, LoadError>)
    ensures r == ChunksIn(host, files)
  {
    var entries := ReadEntries(files.entries, files.paths);
    if entries.Err? {
      return Err(entries.error);
    }
    r := ReadChunks(host, files.chunks, files.docs, entries.value);
  }

  /** The counts and offsets that the files cut to 32 and 64 bits. */
  predicate SizesFit(entries: seq<Entry>, chunks: seq<Chunk>, tombstones: seq<Chunk>) {
    && |entries| < U32_LIMIT && RowCount(chunks, tombstones) < U32_LIMIT
    && |SectionNames(chunks + tombstones)| < U32_LIMIT && |Records(TextBytes(), chunks)| < U64_LIMIT
  }

  /**
   * A layout that is written loads: every live chunk in order and no tombstone, or an error when some path is no
   * entry's.
   */
  lemma {:induction false} LayoutRoundTrip(host: Host, entries: seq<Entry>, chunks: seq<Chunk>, tombstones: seq<Chunk>,
      files: LayoutFiles)
    requires LayoutOf(entries, chunks, tombstones) == Ok(files) && SizesFit(entries, chunks, tombstones)
    requires forall c :: c in chunks ==> host.valid(c.extractedAt.secs)
    ensures ChunksIn(host, files) == Loaded(entries, chunks)
  {
    EntriesLoad(entries, chunks);
    RowsLoad(host, entries, chunks, tombstones, files.chunks);
  }

  lemma {:induction false} EntriesLoad(entries: seq<Entry>, chunks: seq<Chunk>)
    requires |entries| < U32_LIMIT && PathsBin(entries).Ok?
    ensures EntriesBin(entries, chunks).Ok?
    ensures EntriesOf(EntriesBin(entries, chunks).value, PathsBin(entries).value) == Ok(Mapped(Renamed(), entries))
  {
    var c := CatalogOf(entries).value;
    CatalogFits(entries, c);
    EntriesRoundTrip(entries, c, StatsOf(chunks));
    assert entries[..Kept(|entries|)] == entries;
  }

  lemma {:induction false} RowsLoad(host: Host, entries: seq<Entry>, chunks: seq<Chunk>, tombstones: seq<Chunk>,
      raw: Bytes)
    requires ChunksBin(entries, chunks, tombstones) == Ok(raw) && SizesFit(entries, chunks, tombstones)
    requires forall c :: c in chunks ==> host.valid(c.extractedAt.secs)
    ensures ChunksOf(host, raw, Records(TextBytes(), chunks), Mapped(Renamed(), entries)) == Loaded(entries, chunks)
  {
    var names, docs := SectionNames(chunks + tombstones), Records(TextBytes(), chunks);
    var ids, table := IdsFor(entries, names), Mapped(Renamed(), entries);
    var restore, live, dead := RestorerFor(host, docs, table, names), MakerFor(true, ids), MakerFor(false, ids);
    var n: u32 := RowCount(chunks, tombstones);
    ChunksBinIs(entries, chunks, tombstones, raw, names, live, dead, n);
    var records, rows := FileParts(names, n, live, dead, chunks, tombstones, raw);
    LiveRecordsBack(host, entries, chunks, tombstones);
    TombstonesAreDropped(host, docs, table, names, ids);
    RecordsLoad(restore, live, dead, entries, chunks, tombstones, records);
    NamesBack(host, names);
    RowsRead(restore, records, n, rows);
    FileBack(host, raw, docs, table, names, rows, n);
  }

  lemma {:induction false} ChunksBinIs(entries: seq<Entry>, chunks: seq<Chunk>, tombstones: seq<Chunk>, raw: Bytes,
      names: seq<string>, live: Maker, dead: Maker, n: nat)
    requires ChunksBin(entries, chunks, tombstones) == Ok(raw) && names == SectionNames(chunks + tombstones) &&
      n == RowCount(chunks, tombstones)
    requires live == MakerFor(true, IdsFor(entries, names)) && dead == MakerFor(false, IdsFor(entries, names))
    ensures FileOf(names, n, live, dead, chunks, tombstones) == Ok(raw) && NamesFit(Encoder(), names)
  {
  }

  lemma {:induction false} FileParts(names: seq<string>, n: nat, live: Maker, dead: Maker, chunks: seq<Chunk>,
      tombstones: seq<Chunk>, raw: Bytes)
    returns (records: seq<Record>, rows: Bytes)
    requires FileOf(names, n, live, dead, chunks, tombstones) == Ok(raw)
    ensures AllRecords(live, dead, chunks, tombstones) == Ok(records)
    ensures raw == Preamble(names, n) + rows && rows == Records(RecordBytes(), records)
  {
    records := AllRecords(live, dead, chunks, tombstones).value;
    rows := Records(RecordBytes(), records);
  }

  lemma {:induction false} TombstonesAreDropped(host: Host, docs: Bytes, entries: seq<Entry>, names: seq<string>,
      ids: Ids)
    ensures Drops(RestorerFor(host, docs, entries, names), MakerFor(false, ids))
  {
  }

  lemma {:induction false} RecordsLoad(restore: Restorer, live: Maker, dead: Maker, entries: seq<Entry>,
      chunks: seq<Chunk>, tombstones: seq<Chunk>, records: seq<Record>)
    requires RestoresEach(restore, live, entries, chunks) && Drops(restore, dead) &&
      AllRecords(live, dead, chunks, tombstones) == Ok(records)
    ensures |records| == RowCount(chunks, tombstones) && RestoreAll(restore, records) == Loaded(entries, chunks)
  {
    var first, second := RecordsFor(live, chunks).value, RecordsFor(dead, tombstones).value;
    LiveRestores(restore, live, entries, chunks, first);
    DeadRestores(restore, dead, tombstones, second);
    RestoreJoin(restore, first, second);
    if Loaded(entries, chunks).Ok? { assert Loaded(entries, chunks).value + [] == Loaded(entries, chunks).value; }
  }

  lemma {:induction false} LiveRecordsBack(host: Host, entries: seq<Entry>, chunks: seq<Chunk>, tombstones: seq<Chunk>)
    requires SizesFit(entries, chunks, tombstones) && forall c :: c in chunks ==> host.valid(c.extractedAt.secs)
    ensures var names := SectionNames(chunks + tombstones);
      RestoresEach(RestorerFor(host, Records(TextBytes(), chunks), Mapped(Renamed(), entries), names),
        MakerFor(true, IdsFor(entries, names)), entries, chunks)
  {
    var names, docs := SectionNames(chunks + tombstones), Records(TextBytes(), chunks);
    var ids := IdsFor(entries, names);
    forall i | 0 <= i < |chunks| && RecordFor(chunks[i], true, TextOffset(chunks[..i]), ids).Ok?
      ensures RestorerFor(host, docs, Mapped(Renamed(), entries),
        names)(RecordFor(chunks[i], true, TextOffset(chunks[..i]), ids).value) ==
              LoadedOne(entries, chunks[i])
    {
      var c := chunks[i];
      assert c in chunks && c in chunks + tombstones;
      OffsetIsLength(chunks, i);
      DocsPrefix(chunks, i);
      LiveBack(host, docs, entries, names, ids, c, TextOffset(chunks[..i]),
        RecordFor(c, true, TextOffset(chunks[..i]), ids).value);
    }
  }

  // ---------- when a layout is written ----------

  function PathBytes(): Entry -> Bytes { (e: Entry) => Encode(e.path) }

  /** Every path has a length of 32 bits, and all before it have one of 64. */
  predicate PathsFit(entries: seq<Entry>) {
    forall i :: 0 <= i < |entries| ==>
      |Encode(entries[i].path)| < U32_LIMIT && |Records(PathBytes(), entries[..i])| < U64_LIMIT
  }

  lemma {:induction false} PathsFitNext(entries: seq<Entry>)
    requires entries != []
    ensures var n := |entries| - 1;
      PathsFit(entries) <==>
        PathsFit(entries[..n]) && |Encode(entries[n].path)| < U32_LIMIT &&
        |Records(PathBytes(), entries[..n])| < U64_LIMIT
  {
    var n := |entries| - 1;
    assert forall i :: 0 <= i < n ==> entries[..n][i] == entries[i] && entries[..n][..i] == entries[..i];
  }

  lemma {:induction false} PathsAreWritten(entries: seq<Entry>)
    ensures CatalogOf(entries).Ok? <==> PathsFit(entries)
    ensures CatalogOf(entries).Ok? ==> CatalogOf(entries).value.blob == Records(PathBytes(), entries)
  {
    if entries != [] {
      PathsFitNext(entries);
      PathsAreWritten(entries[..|entries| - 1]);
    }
  }

  /** The numbers of a chunk fit its record, and its hash can be read. */
  predicate ChunkFits(c: Chunk, live: bool) {
    && (live ==> |Encode(c.text)| < U32_LIMIT) && c.chunkIndex < U32_LIMIT && c.totalChunks < U32_LIMIT
    && HashBytes(c.docHash).Some?
  }

  lemma {:induction false} ChunksAreWritten(chunks: seq<Chunk>, live: bool, ids: Ids)
    ensures RecordsFor(MakerFor(live, ids), chunks).Ok? <==> forall c :: c in chunks ==> ChunkFits(c, live)
  {
    if chunks != [] {
      var n := |chunks| - 1;
      ChunksAreWritten(chunks[..n], live, ids);
      assert chunks == chunks[..n] + [chunks[n]];
      assert MakerFor(live, ids)(chunks[n], TextOffset(chunks[..n])).Ok? <==> ChunkFits(chunks[n], live);
    }
  }

  /**
   * A layout is written exactly when paths, section names and chunks fit their fields and no hash panics; otherwise
   * nothing is.
   */
  lemma {:induction false} LayoutIsWritten(entries: seq<Entry>, chunks: seq<Chunk>, tombstones: seq<Chunk>)
    ensures var names := SectionNames(chunks + tombstones);
      LayoutOf(entries, chunks, tombstones).Ok? <==>
        && PathsFit(entries) && |names| <= U32_LIMIT && (forall name :: name in names ==> |Encode(name)| < U32_LIMIT)
        && (forall c :: c in chunks ==> ChunkFits(c, true)) && (forall c :: c in tombstones ==> ChunkFits(c, false))
  {
    var names := SectionNames(chunks + tombstones);
    var ids := IdsFor(entries, names);
    PathsAreWritten(entries);
    if PathsFit(entries) { CatalogFits(entries, CatalogOf(entries).value); }
    ChunksAreWritten(chunks, true, ids);
    ChunksAreWritten(tombstones, false, ids);
    NamesAreWritten(names);
    BinIsWritten(entries, chunks, tombstones, names, MakerFor(true, ids), MakerFor(false, ids));
  }

  lemma {:induction false} NamesAreWritten(names: seq<string>)
    ensures NamesFit(Encoder(), names) <==> forall name :: name in names ==> |Encode(name)| < U32_LIMIT
  {
    assert forall name :: Encoder()(name) == Encode(name);
    if NamesFit(Encoder(), names) {
      forall name | name in names ensures |Encode(name)| < U32_LIMIT {
        var i :| 0 <= i < |names| && names[i] == name;
        assert |Encoder()(names[i])| < U32_LIMIT;
      }
    } else {
      var i :| 0 <= i < |names| && |Encoder()(names[i])| >= U32_LIMIT;
      assert names[i] in names;
    }
  }

  lemma {:induction false} BinIsWritten(entries: seq<Entry>, chunks: seq<Chunk>, tombstones: seq<Chunk>,
      names: seq<string>, live: Maker, dead: Maker)
    requires names == SectionNames(chunks + tombstones)
    requires live == MakerFor(true, IdsFor(entries, names)) && dead == MakerFor(false, IdsFor(entries, names))
    ensures ChunksBin(entries, chunks, tombstones).Ok? <==>
            |names| <= U32_LIMIT && NamesFit(Encoder(), names) && RecordsFor(live, chunks).Ok? &&
              RecordsFor(dead, tombstones).Ok?
  {
  }

  // ---------- what survives ----------

  /** A chunk that comes back as it was. */
  ghost predicate Survives(entries: seq<Entry>, c: Chunk) {
    && IsEntryPath(entries, c.path) && c.commandName == CommandName(c.path)
    && (exists code: byte :: MethodName(code) == c.extractionMethod)
    && (c.docHash == "" || IsHash(c.docHash)) && c.extractedAt.nanos == 0
  }

  /**
   * All chunks come back unchanged exactly when each is of an entry, named after its path, with a known method, a
   * proper hash and whole seconds.
   */
  lemma {:induction false} LayoutSurvives(host: Host, entries: seq<Entry>, chunks: seq<Chunk>, tombstones: seq<Chunk>,
      files: LayoutFiles)
    requires LayoutOf(entries, chunks, tombstones) == Ok(files) && SizesFit(entries, chunks, tombstones)
    requires forall c :: c in chunks ==> host.valid(c.extractedAt.secs)
    ensures ChunksIn(host, files) == Ok(chunks) <==> forall c :: c in chunks ==> Survives(entries, c)
  {
    LayoutRoundTrip(host, entries, chunks, tombstones, files);
    forall c | c in chunks ensures Restored()(c) == c && IsEntryPath(entries, c.path) <==> Survives(entries, c) {
      ChunkSurvives(entries, c);
    }
    MappedSame(Restored(), chunks);
  }

  lemma {:induction false} ChunkSurvives(entries: seq<Entry>, c: Chunk)
    ensures Restored()(c) == c && IsEntryPath(entries, c.path) <==> Survives(entries, c)
  {
    MethodRoundTrip(c.extractionMethod);
    HashRoundTrip(c.docHash);
  }

  // ---------- what an entry says of its documents ----------

  /** The chunks of a path stand together. */
  predicate IsRun(chunks: seq<Chunk>, path: string, a: nat, b: nat) {
    a < b <= |chunks| && forall i :: 0 <= i < |chunks| ==> (chunks[i].path == path <==> a <= i < b)
  }

  lemma {:induction false} NoStats(chunks: seq<Chunk>, path: string)
    requires forall i :: 0 <= i < |chunks| ==> chunks[i].path != path
    ensures path !in StatsOf(chunks)
  {
    if chunks != [] { NoStats(chunks[..|chunks| - 1], path); }
  }

  /** What an entry records of its chunks: how many, which first, and where the docs file holds their texts. */
  ghost predicate Locates(s: Stats, docs: Bytes, texts: Bytes, a: nat, b: nat) {
    && s.count == b - a && s.first == a % U32_LIMIT
    && s.off + s.length <= |docs| && docs[s.off..s.off + s.length] == texts
  }

  ghost predicate StatsLocated(chunks: seq<Chunk>, path: string, a: nat, b: nat) {
    && path in StatsOf(chunks) && a <= b <= |chunks|
    && Locates(StatsOf(chunks)[path], Records(TextBytes(), chunks), Records(TextBytes(), chunks[a..b]), a, b)
    && (b == |chunks| ==> StatsOf(chunks)[path].off + StatsOf(chunks)[path].length == |Records(TextBytes(), chunks)|)
  }

  lemma {:induction false} StatsLocateTexts(chunks: seq<Chunk>, path: string, a: nat, b: nat)
    requires IsRun(chunks, path, a, b) && |Records(TextBytes(), chunks)| < U64_LIMIT && b - a < U32_LIMIT
    ensures StatsLocated(chunks, path, a, b)
    decreases |chunks|
  {
    var n := |chunks| - 1;
    DocsLast(chunks, n);
    if b <= n {
      StatsLocateTexts(chunks[..n], path, a, b);
      AfterRun(chunks, path, a, b);
    } else if a == n {
      NoStats(chunks[..n], path);
      StartOfRun(chunks, path);
    } else {
      StatsLocateTexts(chunks[..n], path, a, n);
      EndOfRun(chunks, path, a, n, b, Records(TextBytes(), chunks[..n]), Encode(chunks[n].text),
        StatsOf(chunks[..n])[path],
               Records(TextBytes(), chunks[..n][a..n]));
    }
  }

  lemma {:induction false} AfterRun(chunks: seq<Chunk>, path: string, a: nat, b: nat)
    requires b < |chunks| && chunks[|chunks| - 1].path != path && StatsLocated(chunks[..|chunks| - 1], path, a, b)
    ensures StatsLocated(chunks, path, a, b)
  {
    var n := |chunks| - 1;
    var docs, text, texts := Records(TextBytes(), chunks[..n]), Encode(chunks[n].text),
      Records(TextBytes(), chunks[a..b]);
    assert chunks[..n][a..b] == chunks[a..b];
    LocatesMore(StatsOf(chunks[..n])[path], docs, text, texts, a, b);
    assert Records(TextBytes(), chunks) == docs + text;
    StatsElsewhere(chunks, path);
  }

  lemma {:induction false} StartOfRun(chunks: seq<Chunk>, path: string)
    requires chunks != [] && chunks[|chunks| - 1].path == path && path !in StatsOf(chunks[..|chunks| - 1])
    requires |Records(TextBytes(), chunks)| < U64_LIMIT
    ensures StatsLocated(chunks, path, |chunks| - 1, |chunks|)
  {
    var n := |chunks| - 1;
    var docs, text := Records(TextBytes(), chunks[..n]), Encode(chunks[n].text);
    assert Records(TextBytes(), chunks) == docs + text;
    OffsetIsLength(chunks, n);
    TextsMore(chunks, n, n, n + 1);
    StatsHere(chunks);
    FirstText(docs, text, n);
    assert chunks[n..n + 1] == chunks[n..|chunks|];
  }

  lemma {:induction false} DocsLast(chunks: seq<Chunk>, n: nat)
    requires n + 1 == |chunks|
    ensures Records(TextBytes(), chunks) == Records(TextBytes(), chunks[..n]) + Encode(chunks[n].text)
  {
  }

  /** One chunk more of a path whose chunks end here. */
  lemma {:induction false} EndOfRun(chunks: seq<Chunk>, path: string, a: nat, n: nat, b: nat, docs: Bytes, text: Bytes,
      s: Stats, texts: Bytes)
    requires b == |chunks| == n + 1 && a < n && chunks[n].path == path && n + 1 - a < U32_LIMIT &&
      |docs + text| < U64_LIMIT
    requires docs == Records(TextBytes(), chunks[..n]) && text == Encode(chunks[n].text)
    requires path in StatsOf(chunks[..n]) && s == StatsOf(chunks[..n])[path]
    requires texts == Records(TextBytes(), chunks[..n][a..n]) && Locates(s, docs, texts, a, n) &&
      s.off + s.length == |docs|
    ensures StatsLocated(chunks, path, a, b)
  {
    DocsLast(chunks, n);
    NextText(docs, text, s, texts, a, n, b);
    EndStats(chunks, n);
    TextsMore(chunks, a, n, b);
    SoLocated(chunks, path, a, b, Counted(s, |docs|, |text|), docs + text, texts + text);
  }

  lemma {:induction false} SoLocated(chunks: seq<Chunk>, path: string, a: nat, b: nat, s: Stats, docs: Bytes,
      texts: Bytes)
    requires a <= b <= |chunks| && path in StatsOf(chunks) && StatsOf(chunks)[path] == s
    requires docs == Records(TextBytes(), chunks) && texts == Records(TextBytes(), chunks[a..b])
    requires Locates(s, docs, texts, a, b) && (b == |chunks| ==> s.off + s.length == |docs|)
    ensures StatsLocated(chunks, path, a, b)
  {
  }

  lemma {:induction false} EndStats(chunks: seq<Chunk>, n: nat)
    requires n + 1 == |chunks| && |Records(TextBytes(), chunks)| < U64_LIMIT
    ensures var c, before := chunks[n], StatsOf(chunks[..n]);
      && c.path in StatsOf(chunks)
      && StatsOf(chunks)[c.path] ==
           Counted(if c.path in before then before[c.path]
             else Stats(n % U32_LIMIT, 0, 0, 0), |Records(TextBytes(), chunks[..n])|, |Encode(c.text)|)
  {
    OffsetIsLength(chunks, n);
    StatsHere(chunks);
  }

  lemma {:induction false} LocatesMore(s: Stats, docs: Bytes, more: Bytes, texts: Bytes, a: nat, b: nat)
    requires Locates(s, docs, texts, a, b)
    ensures Locates(s, docs + more, texts, a, b)
  {
    InPrefix(docs, more, s.off, s.off + s.length);
  }

  lemma {:induction false} StatsElsewhere(chunks: seq<Chunk>, path: string)
    requires chunks != [] && chunks[|chunks| - 1].path != path
    ensures var before := StatsOf(chunks[..|chunks| - 1]);
      && (path in before <==> path in StatsOf(chunks))
      && (path in before ==> StatsOf(chunks)[path] == before[path])
  {
  }

  lemma {:induction false} StatsHere(chunks: seq<Chunk>)
    requires chunks != []
    ensures var n := |chunks| - 1;
      var c, before := chunks[n], StatsOf(chunks[..n]);
      && c.path in StatsOf(chunks)
      && StatsOf(chunks)[c.path] ==
           Counted(if c.path in before then before[c.path]
             else Stats(n % U32_LIMIT, 0, 0, 0), TextOffset(chunks[..n]), |Encode(c.text)|)
  {
  }

  lemma {:induction false} TextsMore(chunks: seq<Chunk>, a: nat, n: nat, b: nat)
    requires a <= n < |chunks| && b == n + 1
    ensures Records(TextBytes(), chunks[a..b]) == Records(TextBytes(), chunks[..n][a..n]) + Encode(chunks[n].text)
    ensures a == n ==> Records(TextBytes(), chunks[..n][a..n]) == []
  {
    var run := chunks[a..b];
    forall k | 0 <= k < n - a ensures run[..n - a][k] == chunks[..n][a..n][k] {
    }
    assert run[..n - a] == chunks[..n][a..n] && run[n - a] == chunks[n];
  }

  lemma {:induction false} FirstText(docs: Bytes, text: Bytes, a: nat)
    requires |docs + text| < U64_LIMIT
    ensures var t := Counted(Stats(a % U32_LIMIT, 0, 0, 0), |docs|, |text|);
      Locates(t, docs + text, text, a, a + 1) && t.off + t.length == |docs + text|
  {
  }

  lemma {:induction false} NextText(docs: Bytes, text: Bytes, s: Stats, held: Bytes, a: nat, n: nat, b: nat)
    requires b == n + 1 && a < n && Locates(s, docs, held, a, n) && s.off + s.length == |docs| &&
      |docs + text| < U64_LIMIT && n + 1 - a < U32_LIMIT
    ensures var t := Counted(s, |docs|, |text|);
      Locates(t, docs + text, held + text, a, b) && t.off + t.length == |docs + text|
  {
  }
}

/** The docs and chunks files of the layout (crates/termlm-indexer/src/store.rs). */
module ChunksFile {
  import opened Wrappers
  import opened Utf8
  import opened Binary
  import opened Chunks
  import opened Ordering
  import opened Codecs
  import opened EntriesFile

  const CHUNKS_MAGIC: Bytes := [84, 76, 77, 67, 48, 48, 48, 49]
  const CHUNK_SIZE: nat := 72

  // ---------- docs.bin ----------

  function TextBytes(): Chunk -> Bytes { (c: Chunk) => Encode(c.text) }

  method WriteDocsBin(chunks: seq<Chunk>) returns (docs: Bytes)
    ensures docs == Records(TextBytes(), chunks)
  {
    docs := PutRecords(TextBytes(), chunks, []);
  }

  // ---------- section ids ----------

  /** The section names in the order of their first use. */
  function SectionNames(chunks: seq<Chunk>): (names: seq<string>)
    ensures forall i, j :: 0 <= i < j < |names| ==> names[i] != names[j]
    ensures forall c :: c in chunks ==> c.sectionName in names
  {
    if chunks == [] then [] else
      var before, c := SectionNames(chunks[..|chunks| - 1]), chunks[|chunks| - 1];
      assert chunks == chunks[..|chunks| - 1] + [c];
      if c.sectionName in before then before else before + [c.sectionName]
  }

  /** A table that numbers the names of a list. */
  ghost predicate Numbers(ids: map<string, nat>, names: seq<string>) {
    && (forall name :: name in ids <==> name in names)
    && (forall i :: 0 <= i < |names| ==> names[i] in ids && ids[names[i]] == i)
  }

  method NumberSections(chunks: seq<Chunk>) returns (r: Result<map<string, nat>, WriteError>)
    ensures if |SectionNames(chunks)| <= U32_LIMIT then r.Ok? && Numbers(r.value, SectionNames(chunks))
      else r == Err(Overflow)
  {
    var ids: map<string, nat> := map[];
    ghost var names: seq<string> := [];
    for i := 0 to |chunks|
      invariant names == SectionNames(chunks[..i]) && Numbers(ids, names) && |ids| == |names| <= U32_LIMIT
    {
      var name := chunks[i].sectionName;
      assert chunks[..i + 1][..i] == chunks[..i];
      if name !in ids {
        if |ids| >= U32_LIMIT {
          NamesGrow(chunks, i + 1);
          return Err(Overflow);
        }
        ids := ids[name := |ids|];
        names := names + [name];
      }
    }
    assert chunks[..|chunks|] == chunks;
    r := Ok(ids);
  }

  lemma {:induction false} NamesGrow(chunks: seq<Chunk>, i: nat)
    requires i <= |chunks|
    ensures |SectionNames(chunks[..i])| <= |SectionNames(chunks)|
    decreases |chunks|
  {
    if i == |chunks| {
      assert chunks[..i] == chunks;
    } else {
      assert chunks[..|chunks| - 1][..i] == chunks[..i];
      NamesGrow(chunks[..|chunks| - 1], i);
    }
  }

  /** The names back in the order of their numbers. */
  method ListSections(ids: map<string, nat>, ghost names: seq<string>) returns (sections: seq<string>)
    requires Numbers(ids, names) && forall i, j :: 0 <= i < j < |names| ==> names[i] != names[j]
    ensures sections == names
  {
    NumbersSize(ids, names);
    sections := seq(|ids|, i => "");
    var keys := SortedKeys(ids.Keys);
    for k := 0 to |keys|
      invariant |sections| == |names|
      invariant forall j :: 0 <= j < k ==> ids[keys[j]] < |sections| && sections[ids[keys[j]]] == keys[j]
    {
      var name := keys[k];
      NumberOf(ids, names, name);
      forall j | 0 <= j < k ensures ids[keys[j]] != ids[name] { NumberOf(ids, names, keys[j]); }
      if ids[name] < |sections| {
        sections := sections[ids[name] := name];
      }
    }
    AllListed(ids, names, keys, sections);
  }

  lemma {:induction false} AllListed(ids: map<string, nat>, names: seq<string>, keys: seq<string>,
      sections: seq<string>)
    requires Numbers(ids, names) && |sections| == |names| && (forall name :: name in keys <==> name in ids)
    requires forall j :: 0 <= j < |keys| ==> ids[keys[j]] < |sections| && sections[ids[keys[j]]] == keys[j]
    ensures sections == names
  {
    forall i | 0 <= i < |names| ensures sections[i] == names[i] {
      assert names[i] in keys;
      var j :| 0 <= j < |keys| && keys[j] == names[i];
    }
  }

  lemma {:induction false} NumberOf(ids: map<string, nat>, names: seq<string>, name: string)
    requires Numbers(ids, names) && name in ids
    ensures ids[name] < |names| && names[ids[name]] == name
  {
    var i :| 0 <= i < |names| && names[i] == name;
  }

  lemma {:induction false} NumbersSize(ids: map<string, nat>, names: seq<string>)
    requires Numbers(ids, names) && forall i, j :: 0 <= i < j < |names| ==> names[i] != names[j]
    ensures |ids| == |names|
  {
    var keys := set name | name in names;
    assert ids.Keys == keys;
    DistinctSize(names);
  }

  lemma {:induction false} DistinctSize(names: seq<string>)
    requires forall i, j :: 0 <= i < j < |names| ==> names[i] != names[j]
    ensures |set name | name in names| == |names|
  {
    if names != [] {
      var rest, last := names[..|names| - 1], names[|names| - 1];
      DistinctSize(rest);
      assert names == rest + [last];
      assert (set name | name in names) == (set name | name in rest) + {last};
      assert last !in rest;
    }
  }

  // ---------- entry ids ----------

  /** The row of the last entry with a path. */
  function EntryIds(entries: seq<Entry>): map<string, nat> {
    if entries == [] then map[] else
      EntryIds(entries[..|entries| - 1])[entries[|entries| - 1].path := (|entries| - 1) % U32_LIMIT]
  }

  method NumberEntries(entries: seq<Entry>) returns (ids: map<string, nat>)
    ensures ids == EntryIds(entries)
  {
    ids := map[];
    for i := 0 to |entries|
      invariant ids == EntryIds(entries[..i])
    {
      assert entries[..i + 1][..i] == entries[..i];
      ids := ids[entries[i].path := i % U32_LIMIT];
    }
    assert entries[..|entries|] == entries;
  }

  lemma {:induction false} EntryIdsHold(entries: seq<Entry>, path: string)
    requires |entries| < U32_LIMIT
    ensures path in EntryIds(entries) ==>
      EntryIds(entries)[path] < |entries| && entries[EntryIds(entries)[path]].path == path
    ensures path in EntryIds(entries) <==> exists i :: 0 <= i < |entries| && entries[i].path == path
  {
    if entries != [] {
      var n := |entries| - 1;
      EntryIdsHold(entries[..n], path);
      if exists i :: 0 <= i < n && entries[..n][i].path == path {
        var i :| 0 <= i < n && entries[..n][i].path == path;
        assert entries[i].path == path;
      }
      if i :| 0 <= i < |entries| && entries[i].path == path && i < n {
        assert entries[..n][i].path == path;
      }
    }
  }

  // ---------- records ----------

  type Hash = b: Bytes | |b| == 32 witness seq(32, i => 0)

  datatype Place = Place(entry: u32, section: u32, off: u64, length: u32)

  datatype Rank = Rank(index: u32, total: u32, tombstone: bool, code: byte)

  datatype Stamp = Stamp(secs: i64, hash: Hash)

  datatype Record = Record(place: Place, rank: Rank, stamp: Stamp)

  function PlaceBytes(p: Place): (b: Bytes)
    ensures |b| == 20
  {
    U32(p.entry) + U32(p.section) + U64(p.off) + U32(p.length)
  }

  function RankBytes(r: Rank): (b: Bytes)
    ensures |b| == 12
  {
    U32(r.index) + U32(r.total) + [if r.tombstone then 1 else 0, r.code, 0, 0]
  }

  function StampBytes(s: Stamp): (b: Bytes)
    ensures |b| == 40
  {
    I64(s.secs) + s.hash
  }

  function RecordBytes(): Record -> Bytes {
    (r: Record) => PlaceBytes(r.place) + RankBytes(r.rank) + StampBytes(r.stamp)
  }

  datatype Ids = Ids(sections: map<string, nat>, entries: map<string, nat>)

  function Lookup(ids: map<string, nat>, name: string, missing: u32): u32 {
    if name in ids && ids[name] < U32_LIMIT then ids[name] else missing
  }

  /** The record of a chunk whose text starts at `off`, or of a tombstone. */
  function RecordFor(c: Chunk, live: bool, off: u64, ids: Ids): Result<Record, WriteError> {
    var length := |Encode(c.text)|;
    if (live && length >= U32_LIMIT) || c.chunkIndex >= U32_LIMIT || c.totalChunks >= U32_LIMIT then Err(Overflow) else
      match HashBytes(c.docHash)
      case None => Err(HashCutInCharacter)
      case Some(hash) =>
        Ok(Record(Place(Lookup(ids.entries, c.path, U32_LIMIT - 1), Lookup(ids.sections, c.sectionName, 0),
                        if live then off else 0, if live then length else 0),
                  Rank(c.chunkIndex, c.totalChunks, !live, MethodCode(c.extractionMethod)),
                  Stamp(c.extractedAt.secs, hash)))
  }

  /** A record for a chunk and the offset of its text. */
  type Maker = (Chunk, u64) -> Result<Record, WriteError>

  function MakerFor(live: bool, ids: Ids): Maker { (c: Chunk, off: u64) => RecordFor(c, live, off, ids) }

  function RecordsFor(make: Maker, chunks: seq<Chunk>): Result<seq<Record>, WriteError> {
    if chunks == [] then Ok([]) else
      match RecordsFor(make, chunks[..|chunks| - 1])
      case Err(e) => Err(e)
      case Ok(before) =>
        match make(chunks[|chunks| - 1], TextOffset(chunks[..|chunks| - 1]))
        case Err(e) => Err(e)
        case Ok(r) => Ok(before + [r])
  }

  // ---------- chunks.bin ----------

  function Encoder(): string -> Bytes { (s: string) => Encode(s) }

  function NameBytes(encode: string -> Bytes): string -> Bytes {
    (name: string) => U32(|encode(name)|) + encode(name)
  }

  predicate NamesFit(encode: string -> Bytes, names: seq<string>) {
    forall i :: 0 <= i < |names| ==> |encode(names[i])| < U32_LIMIT
  }

  /** The records of live chunks, then of tombstones. */
  function AllRecords(live: Maker, dead: Maker, chunks: seq<Chunk>, tombstones: seq<Chunk>): Result<seq<Record>,
      WriteError> {
    match RecordsFor(live, chunks)
    case Err(e) => Err(e)
    case Ok(first) =>
      match RecordsFor(dead, tombstones)
      case Err(e) => Err(e)
      case Ok(second) => Ok(first + second)
  }

  /** A header and the records. */
  function Payload(header: Bytes, record: Record -> Bytes, records: Result<seq<Record>, WriteError>): Result<Bytes,
      WriteError> {
    match records
    case Ok(records) => Ok(header + Records(record, records))
    case Err(e) => Err(e)
  }

  /** All that precedes the records. */
  function Preamble(names: seq<string>, count: nat): Bytes {
    Header(CHUNKS_MAGIC, |names|) + Records(NameBytes(Encoder()), names) + U32(count)
  }

  function NumberMap(names: seq<string>): map<string, nat> {
    if names == [] then map[] else NumberMap(names[..|names| - 1])[names[|names| - 1] := |names| - 1]
  }

  lemma {:induction false} NumberMapNumbers(names: seq<string>)
    requires forall i, j :: 0 <= i < j < |names| ==> names[i] != names[j]
    ensures Numbers(NumberMap(names), names)
  {
    if names != [] {
      var n := |names| - 1;
      NumberMapNumbers(names[..n]);
      assert names == names[..n] + [names[n]];
      assert forall i :: 0 <= i < n ==> names[..n][i] == names[i];
    }
  }

  lemma {:induction false} NumbersAreTheMap(ids: map<string, nat>, names: seq<string>)
    requires Numbers(ids, names) && forall i, j :: 0 <= i < j < |names| ==> names[i] != names[j]
    ensures ids == NumberMap(names)
  {
    NumberMapNumbers(names);
    forall name | name in ids ensures ids[name] == NumberMap(names)[name] {
      NumberOf(ids, names, name);
      NumberOf(NumberMap(names), names, name);
    }
  }

  /** Section ids and entry ids as the writer numbers them. */
  function IdsFor(entries: seq<Entry>, names: seq<string>): Ids { Ids(NumberMap(names), EntryIds(entries)) }

  function RowCount(chunks: seq<Chunk>, tombstones: seq<Chunk>): nat { |chunks| + |tombstones| }

  function ChunksBin(entries: seq<Entry>, chunks: seq<Chunk>, tombstones: seq<Chunk>): Result<Bytes, WriteError> {
    var names := SectionNames(chunks + tombstones);
    if |names| > U32_LIMIT || !NamesFit(Encoder(), names) then Err(Overflow)
    else FileOf(names, RowCount(chunks, tombstones), MakerFor(true, IdsFor(entries, names)),
      MakerFor(false, IdsFor(entries, names)), chunks, tombstones)
  }

  method WriteChunksBin(entries: seq<Entry>, chunks: seq<Chunk>, tombstones: seq<Chunk>)
      returns (r: Result<Bytes, WriteError>)
    ensures r == ChunksBin(entries, chunks, tombstones)
  {
    var sectionIds := NumberSections(chunks + tombstones);
    if sectionIds.Err? {
      return Err(Overflow);
    }
    NumbersAreTheMap(sectionIds.value, SectionNames(chunks + tombstones));
    var sections := ListSections(sectionIds.value, SectionNames(chunks + tombstones));
    var entryIds := NumberEntries(entries);
    var all := Ids(sectionIds.value, entryIds);
    var payload := PutNames(Encoder(), sections, Header(CHUNKS_MAGIC, |sections|));
    if payload == None {
      return Err(Overflow);
    }
    r := WriteRecords(MakerFor(true, all), MakerFor(false, all), RecordBytes(), chunks, tombstones,
      payload.value + U32(RowCount(chunks, tombstones)));
  }

  /** What the writer makes of chunks and tombstones once they are numbered. */
  function FileOf(names: seq<string>, count: nat, live: Maker, dead: Maker, chunks: seq<Chunk>,
      tombstones: seq<Chunk>): Result<Bytes, WriteError> {
    Payload(Preamble(names, count), RecordBytes(), AllRecords(live, dead, chunks, tombstones))
  }

  method PutNames(encode: string -> Bytes, names: seq<string>, header: Bytes) returns (r: Option<Bytes>)
    ensures r == if NamesFit(encode, names) then Some(header + Records(NameBytes(encode), names)) else None
  {
    var payload := header;
    for i := 0 to |names|
      invariant forall j :: 0 <= j < i ==> |encode(names[j])| < U32_LIMIT
      invariant payload == header + Records(NameBytes(encode), names[..i])
    {
      var bytes := encode(names[i]);
      if |bytes| >= U32_LIMIT {
        return None;
      }
      RecordsNext(NameBytes(encode), names, i);
      payload := Appended(payload, U32(|bytes|) + bytes, header, Records(NameBytes(encode), names[..i]));
    }
    assert names[..|names|] == names;
    r := Some(payload);
  }

  /** A payload that ends in what has been written of a list, and one item more. */
  function Appended(payload: Bytes, item: Bytes, ghost header: Bytes, ghost written: Bytes): (r: Bytes)
    requires payload == header + written
    ensures r == header + (written + item)
  {
    payload + item
  }

  method WriteRecords(live: Maker, dead: Maker, record: Record -> Bytes, chunks: seq<Chunk>, tombstones: seq<Chunk>,
      header: Bytes)
    returns (r: Result<Bytes, WriteError>)
    ensures r == Payload(header, record, AllRecords(live, dead, chunks, tombstones))
  {
    var first := PutChunks(live, record, chunks, header);
    if first.Err? {
      return first;
    }
    r := PutChunks(dead, record, tombstones, first.value);
    PayloadJoin(header, record, RecordsFor(live, chunks), RecordsFor(dead, tombstones));
  }

  lemma {:induction false} PayloadJoin(header: Bytes, record: Record -> Bytes, first: Result<seq<Record>, WriteError>,
      second: Result<seq<Record>, WriteError>)
    requires first.Ok?
    ensures Payload(Payload(header, record, first).value, record, second) ==
            Payload(header, record, if second.Ok? then Ok(first.value + second.value) else second)
  {
    if second.Ok? {
      RecordsJoin(record, first.value, second.value);
      assert (header + Records(record, first.value)) + Records(record, second.value) ==
        header + (Records(record, first.value) + Records(record, second.value));
    }
  }

  method PutChunks(make: Maker, record: Record -> Bytes, chunks: seq<Chunk>, header: Bytes)
      returns (r: Result<Bytes, WriteError>)
    ensures r == Payload(header, record, RecordsFor(make, chunks))
  {
    var payload := header;
    var offset: u64 := 0;
    ghost var records: seq<Record> := [];
    for i := 0 to |chunks|
      invariant RecordsFor(make, chunks[..i]) == Ok(records)
      invariant payload == header + Records(record, records) && offset == TextOffset(chunks[..i])
    {
      var c := chunks[i];
      assert chunks[..i + 1][..i] == chunks[..i] && chunks[..i + 1][i] == c;
      var made := make(c, offset);
      if made.Err? {
        RecordsFail(make, chunks, i + 1, made.error);
        return Err(made.error);
      }
      assert (records + [made.value])[..|records|] == records;
      payload := payload + record(made.value);
      records := records + [made.value];
      offset := SaturatingAdd(offset, |Encode(c.text)|, U64_LIMIT);
    }
    assert chunks[..|chunks|] == chunks;
    r := Ok(payload);
  }

  lemma {:induction false} RecordsFail(make: Maker, chunks: seq<Chunk>, i: nat, e: WriteError)
    requires i <= |chunks| && RecordsFor(make, chunks[..i]) == Err(e)
    ensures RecordsFor(make, chunks) == Err(e)
    decreases |chunks|
  {
    if i == |chunks| {
      assert chunks[..i] == chunks;
    } else {
      assert chunks[..|chunks| - 1][..i] == chunks[..i];
      RecordsFail(make, chunks[..|chunks| - 1], i, e);
    }
  }
}
